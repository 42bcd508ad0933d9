/** Ordering the collected resources of one type by a list of names. */
module ItemCollector {

  class KubernetesResource {
    const namespace: string
    const name: string
    var orderedResource: bool

    constructor (namespace: string, name: string)
      ensures this.namespace == namespace && this.name == name && !orderedResource
    {
      this.namespace, this.name, orderedResource := namespace, name, false;
    }

    function FullName(): string {
      if namespace != "" then namespace + "/" + name else name
    }
  }

  /** A full name tells namespace and name apart, as neither holds a slash; without a namespace it is the name alone. */
  lemma WhatFullNamesTell(a: KubernetesResource, b: KubernetesResource)
    requires '/' !in a.namespace && '/' !in a.name && '/' !in b.namespace && '/' !in b.name
    ensures a.FullName() == b.FullName() <==> a.namespace == b.namespace && a.name == b.name
    ensures a.FullName() == if a.namespace == "" then a.name else a.namespace + "/" + a.name
  {
    if a.FullName() == b.FullName() {
      if a.namespace != "" && b.namespace != "" {
        SlashTells(a.namespace, a.name, b.namespace, b.name);
      } else {
        SlashShows(a.namespace, a.name);
        SlashShows(b.namespace, b.name);
      }
    }
  }

  lemma SlashShows(namespace: string, name: string)
    ensures '/' in namespace + "/" + name
  {
    assert (namespace + "/" + name)[|namespace|] == '/';
  }

  lemma SlashTells(namespace: string, name: string, namespace': string, name': string)
    requires '/' !in namespace && '/' !in namespace' && namespace + "/" + name == namespace' + "/" + name'
    ensures namespace == namespace' && name == name'
  {
    var full := namespace + "/" + name;
    assert full[|namespace|] == '/' && full[|namespace'|] == '/';
    assert forall i | 0 <= i < |namespace| :: full[i] == namespace[i];
    assert forall i | 0 <= i < |namespace'| :: full[i] == namespace'[i];
    assert |namespace| == |namespace'|;
    assert full[..|namespace|] == namespace && full[..|namespace'|] == namespace';
    assert full[|namespace| + 1..] == name && full[|namespace'| + 1..] == name';
  }

  ghost predicate NoRepeats<T>(s: seq<T>) {
    forall i, j | 0 <= i < j < |s| :: s[i] != s[j]
  }

  /** `item` is the last of `items` that carries its name. */
  ghost predicate IsLastNamed(items: seq<KubernetesResource>, item: KubernetesResource) {
    exists i :: 0 <= i < |items| && items[i] == item &&
      forall j | i < j < |items| :: items[j].FullName() != item.FullName()
  }

  /** The list of names picks one item per name, in list order, each name once. */
  ghost predicate SelectedBy(items: seq<KubernetesResource>, order: seq<string>, selected: seq<KubernetesResource>) {
    && (forall item | item in selected :: IsLastNamed(items, item) && item.FullName() in order)
    && (forall item | item in items && IsLastNamed(items, item) && item.FullName() in order :: item in selected)
    && (forall a, b | 0 <= a < b < |selected| :: selected[a].FullName() != selected[b].FullName())
    && (forall a, b | 0 <= a < b < |selected| ::
          FirstIndex(order, selected[a].FullName()) < FirstIndex(order, selected[b].FullName()))
  }

  ghost function FirstIndex(order: seq<string>, name: string): (i: nat)
    ensures name in order ==> i < |order| && order[i] == name
    ensures name in order ==> forall j | 0 <= j < i :: order[j] != name
    ensures name !in order ==> i == |order|
  {
    if order == [] || order[0] == name then 0 else 1 + FirstIndex(order[1..], name)
  }

  /** The items whose name is not listed, in their original order. */
  ghost function Unlisted(items: seq<KubernetesResource>, order: seq<string>): (r: seq<KubernetesResource>)
    ensures forall item | item in r :: item in items && item.FullName() !in order
    ensures forall item | item in items && item.FullName() !in order :: item in r
    ensures NoRepeats(items) ==> NoRepeats(r)
  {
    if items == [] then [] else
      var front, last := items[..|items| - 1], items[|items| - 1];
      assert items == front + [last];
      var r := Unlisted(front, order);
      if last.FullName() in order then r else r + [last]
  }

  /** What the items are called, is listed at most once among them if it is in the order. */
  ghost predicate OrderedNamesAreUnique(items: seq<KubernetesResource>, order: seq<string>) {
    forall i, j | 0 <= i < j < |items| && items[i].FullName() in order :: items[i].FullName() != items[j].FullName()
  }

  /** Listed items first, in the order of the list; the others keep their order. */
  method SortResourcesByOrder(items: seq<KubernetesResource>, order: seq<string>)
    returns (sorted: seq<KubernetesResource>, ghost selected: seq<KubernetesResource>)
    modifies items
    ensures sorted == selected + Unlisted(items, order)
    ensures SelectedBy(items, order, selected)
    ensures forall item | item in items :: item.orderedResource <==> old(item.orderedResource) || item in selected
  {
    selected := [];
    if |order| == 0 {
      NothingListed(items);
      return items, [];
    }
    var itemMap := MapByName(items);
    LastNamedIsInTheMap(items, itemMap);
    var left;
    sorted, left := SelectInOrder(items, itemMap, order);
    selected := sorted;
    SelectedFromMap(items, order, itemMap, selected);
    sorted := AppendRest(items, left, order, sorted);
  }

  method AppendRest(items: seq<KubernetesResource>, left: map<string, KubernetesResource>, ghost order: seq<string>,
      selected: seq<KubernetesResource>) returns (sorted: seq<KubernetesResource>)
    requires forall item | item in items :: item.FullName() in left <==> item.FullName() !in order
    ensures sorted == selected + Unlisted(items, order)
  {
    sorted := selected;
    for i := 0 to |items|
      invariant sorted == selected + Unlisted(items[..i], order)
    {
      assert items[..i + 1][..i] == items[..i] && items[i] in items;
      if items[i].FullName() !in left {
        continue;
      }
      sorted := sorted + [items[i]];
    }
    assert items[..|items|] == items;
  }

  /** A later item of the same name replaces an earlier one. */
  method MapByName(items: seq<KubernetesResource>) returns (itemMap: map<string, KubernetesResource>)
    ensures IsLastMap(items, itemMap)
  {
    itemMap := map[];
    for i := 0 to |items|
      invariant IsLastMap(items[..i], itemMap)
    {
      LastMapGrows(items, i, itemMap);
      itemMap := itemMap[items[i].FullName() := items[i]];
    }
    assert items[..|items|] == items;
  }

  lemma LastMapGrows(items: seq<KubernetesResource>, i: nat, itemMap: map<string, KubernetesResource>)
    requires i < |items| && IsLastMap(items[..i], itemMap)
    ensures IsLastMap(items[..i + 1], itemMap[items[i].FullName() := items[i]])
  {
    var after := itemMap[items[i].FullName() := items[i]];
    var front, more := items[..i], items[..i + 1];
    assert more == front + [items[i]];
    forall f | f in after
      ensures after[f].FullName() == f && IsLastNamed(more, after[f])
      ensures exists k :: 0 <= k < |more| && more[k].FullName() == f
    {
      if f == items[i].FullName() {
        assert more[i] == items[i];
      } else {
        StillLast(items, i, itemMap[f]);
        var k :| 0 <= k < |front| && front[k].FullName() == f;
        assert more[k] == front[k];
      }
    }
    forall k | 0 <= k < |more|
      ensures more[k].FullName() in after
    {
      if k < i {
        assert more[k] == front[k];
      }
    }
  }

  /** Flags and takes out of the map, name by name, what the order lists. */
  method SelectInOrder(ghost items: seq<KubernetesResource>, all: map<string, KubernetesResource>, order: seq<string>)
    returns (selected: seq<KubernetesResource>, itemMap: map<string, KubernetesResource>)
    requires forall f | f in all :: all[f].FullName() == f && all[f] in items
    modifies items
    ensures SelectedSoFar(all, order, selected)
    ensures forall f :: f in itemMap <==> f in all && f !in order
    ensures forall item | item in items :: item.orderedResource <==> old(item.orderedResource) || item in selected
  {
    itemMap, selected := all, [];
    for i := 0 to |order|
      invariant forall item | item in items ::
        item.orderedResource <==> old(item.orderedResource) || item in selected
      invariant MapLeft(all, order[..i], itemMap)
      invariant SelectedSoFar(all, order[..i], selected)
    {
      var name := order[i];
      SelectMore(all, order, i, selected);
      MapLeftMore(all, order, i, itemMap);
      if name in itemMap {
        var item := itemMap[name];
        Flag(item, items);
        selected := selected + [item];
        itemMap := itemMap - {name};
      }
    }
    assert order[..|order|] == order;
  }

  /** Flags one item, and no other. */
  method Flag(item: KubernetesResource, ghost items: seq<KubernetesResource>)
    requires item in items
    modifies item
    ensures forall other | other in items ::
              other.orderedResource <==> old(other.orderedResource) || other == item
  {
    item.orderedResource := true;
  }

  ghost predicate MapLeft(all: map<string, KubernetesResource>, names: seq<string>,
                          itemMap: map<string, KubernetesResource>) {
    && (forall f :: f in itemMap <==> f in all && f !in names)
    && (forall f | f in itemMap :: itemMap[f] == all[f])
  }

  lemma MapLeftMore(all: map<string, KubernetesResource>, order: seq<string>, i: nat,
      itemMap: map<string, KubernetesResource>)
    requires i < |order| && MapLeft(all, order[..i], itemMap)
    ensures order[i] in itemMap <==> order[i] in all && order[i] !in order[..i]
    ensures order[i] in itemMap ==> itemMap[order[i]] == all[order[i]]
    ensures MapLeft(all, order[..i + 1], if order[i] in itemMap then itemMap - {order[i]} else itemMap)
  {
    assert order[..i + 1] == order[..i] + [order[i]];
  }

  lemma {:induction false} NothingListed(items: seq<KubernetesResource>)
    ensures Unlisted(items, []) == items
  {
    if items != [] {
      var front, last := items[..|items| - 1], items[|items| - 1];
      NothingListed(front);
      assert Unlisted(items, []) == Unlisted(front, []) + [last];
    }
  }

  lemma StillLast(items: seq<KubernetesResource>, i: nat, item: KubernetesResource)
    requires i < |items| && IsLastNamed(items[..i], item) && items[i].FullName() != item.FullName()
    ensures IsLastNamed(items[..i + 1], item)
  {
    var front, more := items[..i], items[..i + 1];
    assert more == front + [items[i]];
    var k :| 0 <= k < |front| && front[k] == item && forall j | k < j < |front| :: front[j].FullName() != item.FullName();
    assert more[k] == item;
  }

  ghost predicate IsLastMap(items: seq<KubernetesResource>, all: map<string, KubernetesResource>) {
    && (forall f :: f in all <==> exists k :: 0 <= k < |items| && items[k].FullName() == f)
    && (forall f | f in all :: all[f].FullName() == f && IsLastNamed(items, all[f]))
  }

  lemma LastNamedIsInTheMap(items: seq<KubernetesResource>, all: map<string, KubernetesResource>)
    requires IsLastMap(items, all)
    ensures forall item | item in items ::
              IsLastNamed(items, item) <==> item.FullName() in all && all[item.FullName()] == item
  {
    forall item | item in items && IsLastNamed(items, item)
      ensures item.FullName() in all && all[item.FullName()] == item
    {
      var i :| 0 <= i < |items| && items[i] == item &&
               forall j | i < j < |items| :: items[j].FullName() != item.FullName();
      var other := all[item.FullName()];
      var k :| 0 <= k < |items| && items[k] == other &&
               forall j | k < j < |items| :: items[j].FullName() != other.FullName();
      assert i == k;
    }
  }

  /** What `names` list of `all` is selected, and nothing else. */
  ghost predicate Picked(all: map<string, KubernetesResource>, names: seq<string>, selected: seq<KubernetesResource>) {
    && (forall item | item in selected ::
          item.FullName() in names && item.FullName() in all && all[item.FullName()] == item)
    && (forall f | f in all && f in names :: all[f] in selected)
  }

  ghost predicate InListOrder(names: seq<string>, selected: seq<KubernetesResource>) {
    forall a, b | 0 <= a < b < |selected| ::
      FirstIndex(names, selected[a].FullName()) < FirstIndex(names, selected[b].FullName())
  }

  ghost predicate SelectedSoFar(all: map<string, KubernetesResource>, names: seq<string>,
      selected: seq<KubernetesResource>)
  {
    Picked(all, names, selected) && InListOrder(names, selected)
  }

  lemma {:induction false} FirstIndexOfPrefix(order: seq<string>, i: nat, name: string)
    requires i <= |order| && name in order[..i]
    ensures FirstIndex(order, name) == FirstIndex(order[..i], name) < i
  {
    if order[0] != name {
      assert order[..i][1..] == order[1..][..i - 1];
      FirstIndexOfPrefix(order[1..], i - 1, name);
    }
  }

  lemma {:induction false} FirstIndexOfNew(names: seq<string>, name: string)
    requires name !in names
    ensures FirstIndex(names + [name], name) == |names|
  {
    if names != [] {
      assert (names + [name])[1..] == names[1..] + [name];
      FirstIndexOfNew(names[1..], name);
    }
  }

  lemma PickMore(all: map<string, KubernetesResource>, names: seq<string>, name: string,
      selected: seq<KubernetesResource>)
    requires Picked(all, names, selected)
    requires forall f | f in all :: all[f].FullName() == f
    ensures Picked(all, names + [name],
                   if name in all && name !in names then selected + [all[name]] else selected)
  {
    var after := if name in all && name !in names then selected + [all[name]] else selected;
    forall f | f in all && f in names + [name]
      ensures all[f] in after
    {
      if f in names {
        assert all[f] in selected;
      }
    }
  }

  lemma OrderMore(all: map<string, KubernetesResource>, names: seq<string>, name: string,
      selected: seq<KubernetesResource>)
    requires Picked(all, names, selected) && InListOrder(names, selected)
    requires forall f | f in all :: all[f].FullName() == f
    ensures InListOrder(names + [name],
                        if name in all && name !in names then selected + [all[name]] else selected)
  {
    var more := names + [name];
    assert more[..|names|] == names;
    forall a | 0 <= a < |selected|
      ensures FirstIndex(more, selected[a].FullName()) == FirstIndex(names, selected[a].FullName()) < |names|
    {
      assert selected[a] in selected;
      FirstIndexOfPrefix(more, |names|, selected[a].FullName());
    }
    if name !in names {
      FirstIndexOfNew(names, name);
    }
  }

  lemma SelectMore(all: map<string, KubernetesResource>, order: seq<string>, i: nat,
      selected: seq<KubernetesResource>)
    requires i < |order| && SelectedSoFar(all, order[..i], selected)
    requires forall f | f in all :: all[f].FullName() == f
    ensures SelectedSoFar(all, order[..i + 1],
              if order[i] in all && order[i] !in order[..i] then selected + [all[order[i]]] else selected)
  {
    PickMore(all, order[..i], order[i], selected);
    OrderMore(all, order[..i], order[i], selected);
    assert order[..i + 1] == order[..i] + [order[i]];
  }

  lemma SelectedFromMap(items: seq<KubernetesResource>, order: seq<string>, all: map<string, KubernetesResource>,
      selected: seq<KubernetesResource>)
    requires IsLastMap(items, all) && SelectedSoFar(all, order, selected)
    ensures SelectedBy(items, order, selected)
  {
    LastNamedIsInTheMap(items, all);
    forall a, b | 0 <= a < b < |selected|
      ensures selected[a].FullName() != selected[b].FullName()
    {
      assert FirstIndex(order, selected[a].FullName()) < FirstIndex(order, selected[b].FullName());
    }
  }

  // ----- When sorting loses nothing -----

  lemma {:induction false} CountAtMostOne<T>(s: seq<T>, x: T)
    requires NoRepeats(s)
    ensures multiset(s)[x] == if x in s then 1 else 0
  {
    if s != [] {
      assert s == [s[0]] + s[1..];
      CountAtMostOne(s[1..], x);
    }
  }

  lemma SortedHasNoRepeats(items: seq<KubernetesResource>, order: seq<string>, selected: seq<KubernetesResource>)
    requires NoRepeats(items) && SelectedBy(items, order, selected)
    ensures NoRepeats(selected + Unlisted(items, order))
  {
    var rest := Unlisted(items, order);
    forall i, j | 0 <= i < |selected| && 0 <= j < |rest|
      ensures selected[i] != rest[j]
    {
      assert selected[i] in selected && rest[j] in rest;
    }
  }

  lemma SameMembersSameCounts<T>(a: seq<T>, b: seq<T>)
    requires NoRepeats(a) && NoRepeats(b) && forall x :: x in a <==> x in b
    ensures multiset(a) == multiset(b)
  {
    forall x
      ensures multiset(a)[x] == multiset(b)[x]
    {
      CountAtMostOne(a, x);
      CountAtMostOne(b, x);
    }
  }

  lemma UniqueNamesAreKept(items: seq<KubernetesResource>, order: seq<string>, selected: seq<KubernetesResource>,
      x: KubernetesResource)
    requires SelectedBy(items, order, selected) && OrderedNamesAreUnique(items, order)
    ensures x in selected + Unlisted(items, order) <==> x in items
  {
    if x in selected {
      assert IsLastNamed(items, x);
    } else if x in items && x.FullName() in order {
      var i :| 0 <= i < |items| && items[i] == x;
      assert IsLastNamed(items, x);
    }
  }

  lemma SharedNameIsLost(items: seq<KubernetesResource>, order: seq<string>, selected: seq<KubernetesResource>,
      i: nat, j: nat)
    requires NoRepeats(items) && SelectedBy(items, order, selected)
    requires i < j < |items| && items[i].FullName() in order && items[i].FullName() == items[j].FullName()
    ensures items[i] !in selected + Unlisted(items, order)
  {
    assert !IsLastNamed(items, items[i]);
  }

  /** The result is a permutation of the items if and only if no two items share a listed name. */
  lemma SortingPermutesExactlyWhenNamesAreUnique(items: seq<KubernetesResource>, order: seq<string>,
      selected: seq<KubernetesResource>)
    requires NoRepeats(items) && SelectedBy(items, order, selected)
    ensures multiset(selected + Unlisted(items, order)) == multiset(items) <==> OrderedNamesAreUnique(items, order)
  {
    var sorted := selected + Unlisted(items, order);
    if OrderedNamesAreUnique(items, order) {
      SortedHasNoRepeats(items, order, selected);
      forall x
        ensures x in sorted <==> x in items
      {
        UniqueNamesAreKept(items, order, selected, x);
      }
      SameMembersSameCounts(sorted, items);
    } else {
      var i, j :| 0 <= i < j < |items| && items[i].FullName() in order && items[i].FullName() == items[j].FullName();
      SharedNameIsLost(items, order, selected, i, j);
      assert items[i] in multiset(items) && items[i] !in multiset(sorted);
    }
  }

  /** A resource listed twice, as overlapping label selectors list it: only the second of the two stays. */
  lemma ListedTwice(a: KubernetesResource, b: KubernetesResource, selected: seq<KubernetesResource>)
    requires a != b && a.FullName() == b.FullName() == "x" && SelectedBy([a, b], ["x"], selected)
    ensures a !in selected + Unlisted([a, b], ["x"]) && b in selected + Unlisted([a, b], ["x"])
    ensures multiset(selected + Unlisted([a, b], ["x"])) != multiset([a, b])
  {
    SharedNameIsLost([a, b], ["x"], selected, 0, 1);
    assert [a, b][1] == b && IsLastNamed([a, b], b);
    assert a in multiset([a, b]);
  }
}
