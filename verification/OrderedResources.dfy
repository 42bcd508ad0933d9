/** From the order of a resource type's items to the blocks they are backed up in. */
module OrderedResources {
  import ItemCollector
  import opened ItemBlocks
  import opened ItemBlockBuilder

  type Item = ItemCollector.KubernetesResource

  /** The items of one type, sorted, make up the records from `from` on. */
  ghost predicate CollectedFrom(w: World, from: nat, groupResource: string, sorted: seq<Item>)
    reads sorted
  {
    && from + |sorted| <= |w.collected|
    && forall k | 0 <= k < |sorted| ::
         && w.collected[from + k].id == Identifier(groupResource, sorted[k].namespace, sorted[k].name)
         && w.collected[from + k].ordered == sorted[k].orderedResource
  }

  /** The ordered resources of a sorted list come first and form one run, which ends with the last of them. */
  lemma OrderedItemsFormOneRun(w: World, from: nat, groupResource: string, items: seq<Item>, order: seq<string>,
      selected: seq<Item>)
    requires CollectedFrom(w, from, groupResource, selected + ItemCollector.Unlisted(items, order))
    requires ItemCollector.SelectedBy(items, order, selected) && selected != []
    requires forall item | item in items :: item.orderedResource <==> item in selected
    ensures IsOrderedRun(w, from, from + |selected| - 1)
    ensures forall i | from + |selected| <= i < from + |selected + ItemCollector.Unlisted(items, order)| ::
              !w.collected[i].ordered
  {
    RecordsFit(w, from, groupResource, items, order, selected);
    FittingRecordsFormARun(w, from, |selected|, |selected + ItemCollector.Unlisted(items, order)|, groupResource);
  }

  ghost predicate RecordFits(w: World, from: nat, n: nat, groupResource: string, i: nat) {
    && i < |w.collected| && w.collected[i].id.groupResource == groupResource
    && (w.collected[i].ordered <==> i < from + n)
  }

  lemma FittingRecordsFormARun(w: World, from: nat, n: nat, m: nat, groupResource: string)
    requires 0 < n <= m && from + m <= |w.collected|
    requires forall i | from <= i < from + m :: RecordFits(w, from, n, groupResource, i)
    ensures IsOrderedRun(w, from, from + n - 1)
    ensures forall i | from + n <= i < from + m :: !w.collected[i].ordered
  {
    forall i | from <= i < from + n - 1
      ensures GoesWithNext(w, i)
    {
      assert RecordFits(w, from, n, groupResource, i) && RecordFits(w, from, n, groupResource, i + 1);
    }
    forall i | from + n <= i < from + m
      ensures !w.collected[i].ordered
    {
      assert RecordFits(w, from, n, groupResource, i);
    }
  }

  lemma RecordsFit(w: World, from: nat, groupResource: string, items: seq<Item>, order: seq<string>, selected: seq<Item>)
    requires CollectedFrom(w, from, groupResource, selected + ItemCollector.Unlisted(items, order))
    requires ItemCollector.SelectedBy(items, order, selected)
    requires forall item | item in items :: item.orderedResource <==> item in selected
    ensures forall i | from <= i < from + |selected + ItemCollector.Unlisted(items, order)| ::
              RecordFits(w, from, |selected|, groupResource, i)
  {
    forall i | from <= i < from + |selected + ItemCollector.Unlisted(items, order)|
      ensures RecordFits(w, from, |selected|, groupResource, i)
    {
      RecordOf(w, from, groupResource, items, order, selected, i - from);
    }
  }

  lemma RecordOf(w: World, from: nat, groupResource: string, items: seq<Item>, order: seq<string>, selected: seq<Item>,
      k: nat)
    requires CollectedFrom(w, from, groupResource, selected + ItemCollector.Unlisted(items, order))
    requires ItemCollector.SelectedBy(items, order, selected)
    requires forall item | item in items :: item.orderedResource <==> item in selected
    requires k < |selected + ItemCollector.Unlisted(items, order)|
    ensures RecordFits(w, from, |selected|, groupResource, from + k)
  {
    var rest := ItemCollector.Unlisted(items, order);
    var item := (selected + rest)[k];
    if k < |selected| {
      assert item in selected && ItemCollector.IsLastNamed(items, item);
    } else {
      assert item == rest[k - |selected|] && item in rest;
    }
  }

  /** So after a pass the ordered resources of one type share a block, unless earlier records lead to them. */
  lemma OrderedItemsShareABlock(w: World, from: nat, groupResource: string, items: seq<Item>, order: seq<string>,
      selected: seq<Item>, submitted: seq<seq<Placed>>, p: nat, q: nat)
    requires CollectedFrom(w, from, groupResource, selected + ItemCollector.Unlisted(items, order))
    requires ItemCollector.SelectedBy(items, order, selected) && p < |selected| && q < |selected|
    requires forall item | item in items :: item.orderedResource <==> item in selected
    requires RunsShareBlocks(w, submitted) && DueFrom(w, from, from + p) && DueFrom(w, from, from + q)
    ensures ShareBlock(submitted, FromRecord(from + p), FromRecord(from + q))
  {
    OrderedItemsFormOneRun(w, from, groupResource, items, order, selected);
    assert IsOrderedRun(w, from, from + p) && IsOrderedRun(w, from, from + q);
  }
}
