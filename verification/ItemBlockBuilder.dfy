/** The block-building code: flags, map, current block and submitted blocks are updated in place. */
module ItemBlockBuilder {
  import opened ItemBlocks
  import opened Options

  /** Identifiers not placed yet: collected ones whose records are unflagged, and cluster items not fetched yet. */
  ghost function White(w: World, flags: seq<bool>, fetched: set<Identifier>): set<Identifier> {
    (set i | 0 <= i < |w.collected| && i < |flags| && !flags[i] :: w.collected[i].id)
    + (set id | id in w.cluster && !IsCollected(w, id) && id !in fetched)
  }

  /** All records of an identifier are flagged together. */
  ghost predicate Uniform(w: World, flags: seq<bool>) {
    && |flags| == |w.collected|
    && forall i, j | 0 <= i < |flags| && 0 <= j < |flags| && w.collected[i].id == w.collected[j].id ::
         flags[i] == flags[j]
  }

  ghost function AsSet(ids: seq<Identifier>): set<Identifier> {
    set id | id in ids
  }

  ghost predicate NoRepeats<T>(s: seq<T>) {
    forall i, j | 0 <= i < j < |s| :: s[i] != s[j]
  }

  /** Nothing placed: what the search can still reach in principle. */
  ghost function Everything(w: World): set<Identifier> {
    White(w, seq(|w.collected|, _ => false), {})
  }

  function Concat(blocks: seq<seq<Placed>>): seq<Placed> {
    if blocks == [] then [] else Concat(blocks[..|blocks| - 1]) + blocks[|blocks| - 1]
  }

  lemma OneMoreBlock(blocks: seq<seq<Placed>>, block: seq<Placed>)
    ensures Concat(blocks + [block]) + [] == Concat(blocks) + block
  {
    assert (blocks + [block])[..|blocks|] == blocks;
  }

  function FlagAll(flags: seq<bool>, v: seq<nat>): (r: seq<bool>)
    ensures |r| == |flags|
  {
    seq(|flags|, i requires 0 <= i < |flags| => flags[i] || i in v)
  }

  lemma CollectedWhite(w: World, flags: seq<bool>, fetched: set<Identifier>, id: Identifier)
    requires Uniform(w, flags) && IsCollected(w, id)
    ensures id in White(w, flags, fetched) <==> forall i | i in Versions(w, id) :: !flags[i]
    ensures id in White(w, flags, fetched) <==> exists i :: i in Versions(w, id) && !flags[i]
  {
    var v := Versions(w, id)[0];
    assert v in Versions(w, id) && IsVersionOf(w, id, v);
    if !flags[v] {
      assert w.collected[v].id == id;
    }
  }

  /** Flagging the records of one identifier takes that identifier, and no other, out of the white set. */
  lemma FlaggingOne(w: World, flags: seq<bool>, fetched: set<Identifier>, id: Identifier)
    requires Uniform(w, flags) && IsCollected(w, id)
    ensures Uniform(w, FlagAll(flags, Versions(w, id)))
    ensures White(w, FlagAll(flags, Versions(w, id)), fetched) == White(w, flags, fetched) - {id}
  {
    var flags' := FlagAll(flags, Versions(w, id));
    forall i | 0 <= i < |flags|
      ensures flags'[i] == (flags[i] || w.collected[i].id == id)
    {
      assert i in Versions(w, id) <==> IsVersionOf(w, id, i);
    }
    var before, after := White(w, flags, fetched), White(w, flags', fetched);
    forall x
      ensures x in after <==> x in before && x != id
    {
      if x in before && x != id && IsCollected(w, x) {
        CollectedWhite(w, flags, fetched, x);
        var i :| i in Versions(w, x) && !flags[i];
        assert !flags'[i] && w.collected[i].id == x;
      }
    }
  }

  lemma FetchingOne(w: World, flags: seq<bool>, fetched: set<Identifier>, id: Identifier)
    requires !IsCollected(w, id)
    ensures White(w, flags, fetched + {id}) == White(w, flags, fetched) - {id}
  {
    UncollectedIsNoRecord(w, id);
  }

  /** One more version handled: its flag set, its entry added if it can be, and the lead kept. */
  lemma OneMoreVersion(w: World, flags: seq<bool>, v: seq<nat>, k: nat)
    requires k < |v| && |flags| == |w.collected| && v[k] < |flags|
    ensures FlagAll(flags, v[..k + 1]) == FlagAll(flags, v[..k])[v[k] := true]
    ensures AsRecords(AddableOf(w, v[..k + 1])) ==
            AsRecords(AddableOf(w, v[..k])) + if CanBeAdded(w, v[k]) then [FromRecord(v[k])] else []
    ensures LeadOf(w, v[..k + 1]) ==
            if LeadOf(w, v[..k]) == None && CanBeAdded(w, v[k]) then Some(w.collected[v[k]].answers)
            else LeadOf(w, v[..k])
  {
    assert v[..k + 1] == v[..k] + [v[k]];
    assert v[..k + 1][..k] == v[..k];
  }

  class KubernetesBackupper {
    const w: World
    var inItemBlockOrExcluded: seq<bool>      // one flag per collected record
    var itemsMap: map<Identifier, seq<nat>>   // the collected records of each identifier
    var fetched: set<Identifier>              // identifiers whose map entry came from the cluster, flagged at once
    var items: seq<Placed>                    // the block being built
    var submitted: seq<seq<Placed>>           // the blocks handed to the workers
    ghost var visited: seq<Identifier>        // identifiers in the order in which they were placed

    /** Groups the collected records by identifier. */
    constructor (w: World)
      ensures this.w == w && Valid()
      ensures visited == [] && items == [] && submitted == []
      ensures WhiteNow() == Everything(w)
    {
      this.w := w;
      inItemBlockOrExcluded := seq(|w.collected|, _ => false);
      fetched, items, submitted, visited := {}, [], [], [];
      new;
      itemsMap := map[];
      for i := 0 to |w.collected|
        invariant inItemBlockOrExcluded == seq(|w.collected|, _ => false) && this.w == w
        invariant fetched == {} && items == [] && submitted == [] && visited == []
        invariant forall id :: id in itemsMap <==> VersionsUpTo(w, id, i) != []
        invariant forall id | id in itemsMap :: itemsMap[id] == VersionsUpTo(w, id, i)
      {
        var key := w.collected[i].id;
        itemsMap := itemsMap[key := (if key in itemsMap then itemsMap[key] else []) + [i]];
      }
    }

    ghost function WhiteNow(): set<Identifier>
      reads this
    {
      White(w, inItemBlockOrExcluded, fetched)
    }

    ghost predicate Valid()
      reads this
    {
      && Uniform(w, inItemBlockOrExcluded)
      && (forall id :: id in itemsMap <==> IsCollected(w, id))
      && (forall id | id in itemsMap :: itemsMap[id] == Versions(w, id))
      && (forall id | id in fetched :: id in w.cluster && !IsCollected(w, id))
      && NoRepeats(visited)
      && (forall id :: id in visited <==> id in Everything(w) && id !in WhiteNow())
      && Concat(submitted) + items == EntriesOfAll(w, visited)
    }

    method AddKubernetesResource(i: nat) returns (answers: Option<seq<Answer>>)
      requires i < |w.collected| == |inItemBlockOrExcluded|
      modifies this`inItemBlockOrExcluded, this`items
      ensures old(inItemBlockOrExcluded)[i] ==>
                && inItemBlockOrExcluded == old(inItemBlockOrExcluded)
                && items == old(items) && answers == None
      ensures !old(inItemBlockOrExcluded)[i] ==>
                && inItemBlockOrExcluded == old(inItemBlockOrExcluded)[i := true]
                && items == old(items) + (if CanBeAdded(w, i) then [FromRecord(i)] else [])
                && answers == if CanBeAdded(w, i) then Some(w.collected[i].answers) else None
      ensures CanBeAdded(w, i) <==> w.collected[i].readable && w.collected[i].included
    {
      if inItemBlockOrExcluded[i] {
        return None;
      }
      inItemBlockOrExcluded := inItemBlockOrExcluded[i := true];
      if !w.collected[i].readable {
        return None;
      }
      if !w.collected[i].included {
        return None;
      }
      items := items + [FromRecord(i)];
      return Some(w.collected[i].answers);
    }

    /** Adds every version of a collected identifier; the first one added leads on. */
    method AddAllVersions(id: Identifier) returns (lead: Option<seq<Answer>>)
      requires Uniform(w, inItemBlockOrExcluded)
      requires IsCollected(w, id) && id in itemsMap && itemsMap[id] == Versions(w, id)
      modifies this`inItemBlockOrExcluded, this`items
      ensures id !in old(WhiteNow()) ==>
                inItemBlockOrExcluded == old(inItemBlockOrExcluded) && items == old(items) && lead == None
      ensures id in old(WhiteNow()) ==>
                && inItemBlockOrExcluded == FlagAll(old(inItemBlockOrExcluded), Versions(w, id))
                && items == old(items) + EntriesOf(w, id)
                && lead == if Admits(w, id) then Some(AnswersAt(w, id)) else None
    {
      ghost var flags := inItemBlockOrExcluded;
      ghost var white := id in WhiteNow();
      CollectedWhite(w, flags, fetched, id);
      var versions := itemsMap[id];
      lead := None;
      for k := 0 to |versions|
        invariant |inItemBlockOrExcluded| == |flags|
        invariant !white ==> inItemBlockOrExcluded == flags && items == old(items) && lead == None
        invariant white ==> inItemBlockOrExcluded == FlagAll(flags, versions[..k])
        invariant white ==> items == old(items) + AsRecords(AddableOf(w, versions[..k]))
        invariant white ==> lead == LeadOf(w, versions[..k])
      {
        var i := versions[k];
        assert i in versions && IsVersionOf(w, id, i);
        assert i !in versions[..k];
        OneMoreVersion(w, flags, versions, k);
        var added := AddKubernetesResource(i);
        if lead == None {
          lead := added;
        }
      }
      assert versions[..|versions|] == versions;
    }

    /** What the search has done since the white set was `white`, starting from `roots`. */
    ghost predicate Explored(white: set<Identifier>, roots: set<Identifier>)
      reads this
    {
      && WhiteNow() <= white
      && LeavesNothing(w, white, WhiteNow())
      && forall id | id in white - WhiteNow() :: WhiteReachable(w, white, roots, id)
    }

    /** Runs the plugins' answers for one object, one action after the other. */
    method ExecuteItemBlockActions(answers: seq<Answer>)
      requires Valid()
      modifies this`inItemBlockOrExcluded, this`fetched, this`items, this`visited
      ensures Valid()
      ensures Explored(old(WhiteNow()), RelatedBy(answers))
      ensures RelatedBy(answers) !! WhiteNow()
      ensures old(visited) <= visited && old(items) <= items
      // Placed in this call is exactly what white paths lead to, and the block has grown by exactly its entries.
      ensures forall id ::
        id in old(WhiteNow()) - WhiteNow() <==> WhiteReachable(w, old(WhiteNow()), RelatedBy(answers), id)
      ensures items == old(items) + EntriesOfAll(w, visited[|old(visited)|..])
      decreases |WhiteNow()|, 2
    {
      ghost var white := WhiteNow();
      for a := 0 to |answers|
        invariant Valid() && Explored(white, RelatedBy(answers))
        invariant RelatedBy(answers[..a]) !! WhiteNow()
        invariant old(visited) <= visited && old(items) <= items
      {
        RelatedByOneMore(answers, a);
        if answers[a].NotUsed? || answers[a].Failed? {
          continue;
        }
        ghost var before := WhiteNow();
        SubsetSize(before, white);
        VisitAll(answers[a].ids);
        ExploredFurther(white, RelatedBy(answers), before, AsSet(answers[a].ids));
      }
      assert answers[..|answers|] == answers;
      ExploredMeansReachable(w, white, RelatedBy(answers), WhiteNow());
      EntriesAdded(w, old(visited), visited, Concat(submitted), old(items), items);
    }

    /** Handles the related items of one answer in turn. */
    method VisitAll(relatedItems: seq<Identifier>)
      requires Valid()
      modifies this`inItemBlockOrExcluded, this`fetched, this`items, this`visited
      ensures Valid()
      ensures Explored(old(WhiteNow()), AsSet(relatedItems))
      ensures AsSet(relatedItems) !! WhiteNow()
      ensures old(visited) <= visited && old(items) <= items
      decreases |WhiteNow()|, 1
    {
      ghost var white := WhiteNow();
      for k := 0 to |relatedItems|
        invariant Valid() && Explored(white, AsSet(relatedItems))
        invariant AsSet(relatedItems[..k]) !! WhiteNow()
        invariant old(visited) <= visited && old(items) <= items
      {
        ghost var before := WhiteNow();
        SubsetSize(before, white);
        AsSetOneMore(relatedItems, k);
        VisitRelated(relatedItems[k]);
        ExploredFurther(white, AsSet(relatedItems), before, {relatedItems[k]});
      }
      assert relatedItems[..|relatedItems|] == relatedItems;
    }

    /** One pass over the collected list; every non-empty block is handed over once. */
    method BuildBlocks()
      requires Valid() && visited == [] && items == [] && submitted == [] && WhiteNow() == Everything(w)
      modifies this
      ensures Valid() && items == []
      ensures forall i | 0 <= i < |w.collected| :: inItemBlockOrExcluded[i]
      ensures forall b | 0 <= b < |submitted| :: submitted[b] != []
      ensures forall id :: id in visited <==> Reached(w, |w.collected|, id)
      ensures RunsShareBlocks(w, submitted)
      ensures AllFromOneRun(w, submitted)
    {
      ghost var start := 0;           // where the run of the block being built began
      ghost var blocksBefore: seq<nat> := [];   // the number of blocks handed over when each record came up
      var haveBlock := false;
      for i := 0 to |w.collected|
        invariant Valid() && (!haveBlock || i == |w.collected| ==> items == [])
        invariant Accounted(i, blocksBefore) && Pending(w, |submitted|, blocksBefore, i)
        invariant OpenRun(w, start, i, items)
      {
        haveBlock, start, blocksBefore := HandleItem(i, haveBlock, start, blocksBefore);
      }
      PassDone(blocksBefore);
    }

    /** One record: its block is handed over unless the next one belongs to it. */
    method HandleItem(i: nat, haveBlock: bool, ghost start: nat, ghost blocksBefore: seq<nat>)
      returns (haveBlock': bool, ghost start': nat, ghost blocksBefore': seq<nat>)
      requires Valid() && i < |w.collected| && (!haveBlock ==> items == []) && OpenRun(w, start, i, items)
      requires Accounted(i, blocksBefore) && Pending(w, |submitted|, blocksBefore, i)
      modifies this
      ensures Valid() && (!haveBlock' || i + 1 == |w.collected| ==> items == []) && OpenRun(w, start', i + 1, items)
      ensures Accounted(i + 1, blocksBefore') && Pending(w, |submitted|, blocksBefore', i + 1)
    {
      start' := if items == [] then i else start;
      StartRun(w, i);
      haveBlock' := ConsiderItem(i, haveBlock, start', blocksBefore);
      blocksBefore' := blocksBefore + [|submitted|];
      var addNextToBlock :=
        && i < |w.collected| - 1
        && w.collected[i].ordered && w.collected[i + 1].ordered
        && w.collected[i].id.groupResource == w.collected[i + 1].id.groupResource;
      if haveBlock' && |items| > 0 && !addNextToBlock {
        Submit(i + 1, start', blocksBefore');
        haveBlock' := false;
      }
      NextRun(w, start', i, items);
    }

    /** What the account says once every record has been considered. */
    lemma PassDone(blocksBefore: seq<nat>)
      requires Valid() && items == [] && Accounted(|w.collected|, blocksBefore)
      ensures forall i | 0 <= i < |w.collected| :: inItemBlockOrExcluded[i]
      ensures forall b | 0 <= b < |submitted| :: submitted[b] != []
      ensures forall id :: id in visited <==> Reached(w, |w.collected|, id)
      ensures RunsShareBlocks(w, submitted)
      ensures AllFromOneRun(w, submitted)
    {
      ExploredMeansReachable(w, Everything(w), Roots(w, |w.collected|), WhiteNow());
      AnchoredRunsShare(w, submitted, blocksBefore);
    }

    ghost predicate Accounted(n: nat, blocksBefore: seq<nat>)
      reads this
    {
      && BuiltUpTo(n, blocksBefore) && SearchedUpTo(n) && Anchored(w, submitted, blocksBefore)
      && AllFromOneRun(w, submitted)
    }

    /** Places the item in the current block, or in a new one, unless it has been handled already. */
    method PlaceUnlessFlagged(i: nat, haveBlock: bool) returns (haveBlock': bool)
      requires Valid() && i < |w.collected| && (!haveBlock ==> items == [])
      modifies this`inItemBlockOrExcluded, this`fetched, this`items, this`visited
      ensures Valid() && (!haveBlock' ==> items == [])
      ensures inItemBlockOrExcluded[i]
      ensures forall k | 0 <= k < |w.collected| && old(inItemBlockOrExcluded)[k] :: inItemBlockOrExcluded[k]
      ensures WhiteNow() == old(WhiteNow()) || Explored(old(WhiteNow()), {w.collected[i].id})
      ensures old(visited) <= visited && old(items) <= items
    {
      haveBlock' := haveBlock;
      if !inItemBlockOrExcluded[i] {
        if !haveBlock {
          haveBlock', items := true, [];
        }
        PlaceItem(i);
      }
    }

    /** The same, with the account of the pass kept up to date. */
    method ConsiderItem(i: nat, haveBlock: bool, ghost start: nat, ghost blocksBefore: seq<nat>) returns (haveBlock': bool)
      requires Valid() && i < |w.collected| && (!haveBlock ==> items == [])
      requires Accounted(i, blocksBefore) && Pending(w, |submitted|, blocksBefore, i)
      requires OpenRun(w, start, i, items) && start <= i && IsOrderedRun(w, start, i)
      modifies this`inItemBlockOrExcluded, this`fetched, this`items, this`visited
      ensures Valid() && (!haveBlock' ==> items == [])
      ensures Accounted(i + 1, blocksBefore + [|submitted|])
      ensures GoesWithNext(w, i) ==> Pending(w, |submitted|, blocksBefore + [|submitted|], i + 1)
      ensures !GoesWithNext(w, i) ==> NoRunGoesOn(w, i + 1)
      ensures RunDone(w, start, i, items)
    {
      ghost var white := WhiteNow();
      AnchorOneMore(i, blocksBefore);
      haveBlock' := PlaceUnlessFlagged(i, haveBlock);
      SearchedOneMore(i, white);
      PlacedIsNew(i, start, white, old(visited), old(items));
      PlacedIsReached(i + 1);
      OneMoreBuilt(i, blocksBefore, old(items));
    }

    /** What has been put into the block was not there before record `i` came up. */
    lemma PlacedIsNew(i: nat, start: nat, white: set<Identifier>, visited': seq<Identifier>, items': seq<Placed>)
      requires Valid() && start <= i <= |w.collected| && NewSince(w, start, items')
      requires SearchedAs(w, i, white)
      requires visited' <= visited && items' <= items && Concat(submitted) + items' == EntriesOfAll(w, visited')
      requires forall id :: id in visited' <==> id in Everything(w) && id !in white
      ensures NewSince(w, start, items)
    {
      EntriesAdded(w, visited', visited, Concat(submitted), items', items);
      ExploredMeansReachable(w, Everything(w), Roots(w, i), white);
      var newlyVisited := visited[|visited'|..];
      forall e | e in items && e !in items'
        ensures !ReachedEntry(w, start, e)
      {
        assert e in EntriesOfAll(w, newlyVisited);
        EntriesMembers(w, newlyVisited, e);
        var id := if e.FromRecord? then w.collected[e.index].id else e.id;
        var k :| 0 <= k < |newlyVisited| && newlyVisited[k] == id;
        assert visited[|visited'| + k] == id;
        assert id !in visited';
        if Reached(w, start, id) {
          ReachableMonotone(w, Everything(w), Roots(w, i), Everything(w), Roots(w, start), id);
        }
      }
    }

    lemma PlacedIsReached(n: nat)
      requires Valid() && n <= |w.collected| && SearchedUpTo(n)
      ensures ReachedBlock(w, n, items)
    {
      forall e | e in items
        ensures ReachedEntry(w, n, e)
      {
        assert e in Concat(submitted) + items;
        EntriesMembers(w, visited, e);
      }
    }

    /** Placed is what the first `n` records lead to. */
    ghost predicate SearchedUpTo(n: nat)
      requires n <= |w.collected|
      reads this
    {
      SearchedAs(w, n, WhiteNow())
    }

    lemma SearchedOneMore(i: nat, white: set<Identifier>)
      requires Valid() && i < |w.collected| && inItemBlockOrExcluded[i]
      requires SearchedAs(w, i, white)
      requires WhiteNow() == white || Explored(white, {w.collected[i].id})
      ensures SearchedUpTo(i + 1)
    {
      var id := w.collected[i].id;
      assert Roots(w, i + 1) == Roots(w, i) + {id};
      FlaggedIsNotWhite(w, inItemBlockOrExcluded, fetched, i);
      StillReached(w, i, white);
      if WhiteNow() != white {
        ExploredFurther(Everything(w), Roots(w, i + 1), white, {id});
      }
    }

    /** What has been handed over when record `i` comes up is what the records before it lead to. */
    lemma AnchorOneMore(i: nat, blocksBefore: seq<nat>)
      requires Valid() && i < |w.collected| && |blocksBefore| == i
      requires SearchedUpTo(i) && Anchored(w, submitted, blocksBefore)
      ensures Anchored(w, submitted, blocksBefore + [|submitted|])
    {
      forall b | 0 <= b < |submitted|
        ensures ReachedBlock(w, i, submitted[b])
      {
        forall e | e in submitted[b]
          ensures ReachedEntry(w, i, e)
        {
          InSomeBlock(submitted, e);
          assert e in Concat(submitted) + items;
          EntriesMembers(w, visited, e);
        }
      }
    }

    /** The first `n` items are placed, the blocks handed over are not empty, and runs have been kept together. */
    ghost predicate BuiltUpTo(n: nat, blocksBefore: seq<nat>)
      reads this
    {
      && n <= |w.collected| == |inItemBlockOrExcluded| && |blocksBefore| == n
      && (forall k | 0 <= k < n :: inItemBlockOrExcluded[k])
      && (forall b | 0 <= b < |submitted| :: submitted[b] != [])
      && OrderedStayTogether(w, submitted, items, blocksBefore, n)
    }

    lemma OneMoreBuilt(i: nat, blocksBefore: seq<nat>, before: seq<Placed>)
      requires Valid() && i < |w.collected| && inItemBlockOrExcluded[i] && |blocksBefore| == i
      requires forall k | 0 <= k < i :: inItemBlockOrExcluded[k]
      requires forall b | 0 <= b < |submitted| :: submitted[b] != []
      requires OrderedStayTogether(w, submitted, before, blocksBefore, i) && before <= items
      requires Pending(w, |submitted|, blocksBefore, i)
      ensures BuiltUpTo(i + 1, blocksBefore + [|submitted|])
      ensures GoesWithNext(w, i) ==> Pending(w, |submitted|, blocksBefore + [|submitted|], i + 1)
      ensures !GoesWithNext(w, i) ==> NoRunGoesOn(w, i + 1)
    {
      RecordIsPlaced(i);
      assert (blocksBefore + [|submitted|])[..i] == blocksBefore;
      OneMoreRecord(w, submitted, before, items, blocksBefore + [|submitted|], i);
    }

    /** Hands the block over; the next item starts a new one. */
    method Submit(n: nat, ghost start: nat, ghost blocksBefore: seq<nat>)
      requires Valid() && items != [] && Accounted(n, blocksBefore)
      requires 0 < n <= |w.collected| && RunDone(w, start, n - 1, items)
      modifies this`items, this`submitted
      ensures Valid() && items == [] && Accounted(n, blocksBefore)
      ensures submitted == old(submitted) + [old(items)]
    {
      HandOver(w, submitted, items, blocksBefore, n);
      HandOverRun(w, submitted, items, blocksBefore, start, n - 1);
      OneMoreBlock(submitted, items);
      submitted := submitted + [items];
      items := [];
    }

    lemma RecordIsPlaced(i: nat)
      requires Valid() && i < |w.collected| && inItemBlockOrExcluded[i]
      ensures CanBeAdded(w, i) ==> FromRecord(i) in Concat(submitted) + items
    {
      var id := w.collected[i].id;
      assert i in Versions(w, id) <==> IsVersionOf(w, id, i);
      CollectedWhite(w, inItemBlockOrExcluded, fetched, id);
      assert !seq(|w.collected|, _ => false)[i] && id in Everything(w);
      EntriesMembers(w, visited, FromRecord(i));
    }

    /** Adds the item's versions and everything related to it. */
    method PlaceItem(i: nat)
      requires Valid() && i < |w.collected| && !inItemBlockOrExcluded[i]
      modifies this`inItemBlockOrExcluded, this`fetched, this`items, this`visited
      ensures Valid()
      ensures inItemBlockOrExcluded[i]
      ensures forall k | 0 <= k < |w.collected| && old(inItemBlockOrExcluded)[k] :: inItemBlockOrExcluded[k]
      ensures Explored(old(WhiteNow()), {w.collected[i].id})
      ensures old(visited) <= visited && old(items) <= items
    {
      ghost var white := WhiteNow();
      var id := w.collected[i].id;
      assert i in Versions(w, id) <==> IsVersionOf(w, id, i);
      var newBlockItem := PlaceCollected(id);
      if newBlockItem.Some? {
        ExecuteItemBlockActions(newBlockItem.value);
      }
      VisitedFrom(white, id);
      CollectedWhite(w, inItemBlockOrExcluded, fetched, id);
      forall k | 0 <= k < |w.collected| && old(inItemBlockOrExcluded)[k]
        ensures inItemBlockOrExcluded[k]
      {
        FlaggedStaysFlagged(w, old(inItemBlockOrExcluded), old(fetched), inItemBlockOrExcluded, fetched, k);
      }
    }

    lemma ExploredFurther(white: set<Identifier>, roots: set<Identifier>, before: set<Identifier>,
        roots': set<Identifier>)
      requires before <= white && roots' <= roots && LeavesNothing(w, white, before)
      requires forall id | id in white - before :: WhiteReachable(w, white, roots, id)
      requires Explored(before, roots')
      ensures Explored(white, roots)
    {
      LeavingNothingComposes(w, white, before, WhiteNow());
      forall id | id in white - WhiteNow()
        ensures WhiteReachable(w, white, roots, id)
      {
        if id in before {
          ReachableMonotone(w, white, roots, before, roots', id);
        }
      }
    }

    /** One related item: in the map already, or to be got from the cluster. */
    method VisitRelated(id: Identifier)
      requires Valid()
      modifies this`inItemBlockOrExcluded, this`fetched, this`items, this`visited
      ensures Valid()
      ensures Explored(old(WhiteNow()), {id})
      ensures id !in WhiteNow()
      ensures old(visited) <= visited && old(items) <= items
      decreases |WhiteNow()|, 0
    {
      ghost var white := WhiteNow();
      var answers := None;
      if id in itemsMap {
        answers := PlaceCollected(id);
      } else if id !in fetched {
        UncollectedIsNoRecord(w, id);
        answers := PlaceFromCluster(id);
      } else {
        UncollectedIsNoRecord(w, id);
      }
      if answers.Some? {
        SubsetSize(WhiteNow(), white);
        ExecuteItemBlockActions(answers.value);
      }
      VisitedFrom(white, id);
    }

    /** All versions of a collected identifier go into the block, unless they have been handled before. */
    method PlaceCollected(id: Identifier) returns (lead: Option<seq<Answer>>)
      requires Valid() && id in itemsMap
      modifies this`inItemBlockOrExcluded, this`items, this`visited
      ensures Valid()
      ensures WhiteNow() == old(WhiteNow()) - {id}
      ensures lead == if id in old(WhiteNow()) && Admits(w, id) then Some(AnswersAt(w, id)) else None
      ensures old(visited) <= visited && old(items) <= items
    {
      ghost var white := WhiteNow();
      lead := AddAllVersions(id);
      FlaggingOne(w, old(inItemBlockOrExcluded), fetched, id);
      if id in white {
        visited := visited + [id];
        PlacedOne(w, Concat(submitted), old(visited), id, old(items));
        NowVisited(id, old(visited), white);
      }
    }

    /** The item is got from the cluster, unless that fails, and its map entry is flagged at once. */
    method PlaceFromCluster(id: Identifier) returns (lead: Option<seq<Answer>>)
      requires Valid() && !IsCollected(w, id) && id !in fetched
      modifies this`fetched, this`items, this`visited
      ensures Valid()
      ensures WhiteNow() == old(WhiteNow()) - {id}
      ensures lead == if id in old(WhiteNow()) && Admits(w, id) then Some(AnswersAt(w, id)) else None
      ensures old(visited) <= visited && old(items) <= items
    {
      if id !in w.cluster {
        UncollectedIsNoRecord(w, id);
        return None;
      }
      lead := PlaceFetched(id);
    }

    method PlaceFetched(id: Identifier) returns (lead: Option<seq<Answer>>)
      requires Valid() && !IsCollected(w, id) && id !in fetched && id in w.cluster
      modifies this`fetched, this`items, this`visited
      ensures Valid()
      ensures WhiteNow() == old(WhiteNow()) - {id} && id in old(WhiteNow())
      ensures lead == if Admits(w, id) then Some(AnswersAt(w, id)) else None
      ensures old(visited) <= visited && old(items) <= items
    {
      ghost var white := WhiteNow();
      fetched := fetched + {id};
      visited := visited + [id];
      lead := None;
      if w.cluster[id].included {
        items := items + [FromCluster(id)];
        lead := Some(w.cluster[id].answers);
      }
      ClusterEntries(w, id);
      FetchingOne(w, inItemBlockOrExcluded, old(fetched), id);
      PlacedOne(w, Concat(submitted), old(visited), id, old(items));
      NowVisited(id, old(visited), white);
    }

    lemma NowVisited(id: Identifier, before: seq<Identifier>, white: set<Identifier>)
      requires id in white && WhiteNow() == white - {id} && visited == before + [id]
      requires id in Everything(w) && NoRepeats(before)
      requires forall x :: x in before <==> x in Everything(w) && x !in white
      ensures NoRepeats(visited)
      ensures forall x :: x in visited <==> x in Everything(w) && x !in WhiteNow()
    {
    }

    lemma VisitedFrom(white: set<Identifier>, id: Identifier)
      requires id in white ==> WhiteNow() <= white - {id}
      requires id in white && Admits(w, id) ==> Explored(white - {id}, Next(w, id)) && Next(w, id) !! WhiteNow()
      requires id in white && !Admits(w, id) ==> WhiteNow() == white - {id}
      requires id !in white ==> WhiteNow() == white
      ensures Explored(white, {id})
    {
      if id in white {
        ReachableAtOnce(w, white, {id}, id);
        forall x | x in white - WhiteNow() && x != id
          ensures WhiteReachable(w, white, {id}, x)
        {
          ReachableThrough(w, white, {id}, id, white - {id}, x);
        }
      }
    }
  }

  /** Placing one more identifier keeps the account of blocks and entries. */
  lemma PlacedOne(w: World, done: seq<Placed>, visited: seq<Identifier>, id: Identifier, items: seq<Placed>)
    requires done + items == EntriesOfAll(w, visited)
    ensures done + (items + EntriesOf(w, id)) == EntriesOfAll(w, visited + [id])
  {
    assert (visited + [id])[..|visited|] == visited;
    assert done + (items + EntriesOf(w, id)) == (done + items) + EntriesOf(w, id);
  }

  lemma ClusterEntries(w: World, id: Identifier)
    requires !IsCollected(w, id) && id in w.cluster
    ensures Admits(w, id) == w.cluster[id].included
    ensures EntriesOf(w, id) == if w.cluster[id].included then [FromCluster(id)] else []
    ensures w.cluster[id].included ==> AnswersAt(w, id) == w.cluster[id].answers
  {
  }

  lemma AsSetOneMore(ids: seq<Identifier>, k: nat)
    requires k < |ids|
    ensures AsSet(ids[..k + 1]) == AsSet(ids[..k]) + {ids[k]}
    ensures {ids[k]} <= AsSet(ids)
  {
    assert ids[..k + 1] == ids[..k] + [ids[k]];
  }

  lemma RelatedByOneMore(answers: seq<Answer>, a: nat)
    requires a < |answers|
    ensures RelatedBy(answers[..a + 1]) ==
            RelatedBy(answers[..a]) + if answers[a].Related? then AsSet(answers[a].ids) else {}
    ensures answers[a].Related? ==> AsSet(answers[a].ids) <= RelatedBy(answers)
  {
    forall id
      ensures id in RelatedBy(answers[..a + 1]) <==>
              id in RelatedBy(answers[..a]) || (answers[a].Related? && id in answers[a].ids)
    {
      if answers[a].Related? && id in answers[a].ids {
        var k :| 0 <= k < |answers[a].ids| && answers[a].ids[k] == id;
        assert answers[..a + 1][a].ids[k] == id;
      }
      if id in RelatedBy(answers[..a]) {
        var b, k :| 0 <= b < a && answers[b].Related? && 0 <= k < |answers[b].ids| && answers[b].ids[k] == id;
        assert answers[..a + 1][b].ids[k] == id;
      }
      if id in RelatedBy(answers[..a + 1]) && !(answers[a].Related? && id in answers[a].ids) {
        var b, k :| && 0 <= b < a + 1 && answers[b].Related? && 0 <= k < |answers[b].ids| && answers[b].ids[k] == id;
        assert b < a && answers[..a][b].ids[k] == id;
      }
    }
  }

  lemma UncollectedIsNoRecord(w: World, id: Identifier)
    requires !IsCollected(w, id)
    ensures forall i | 0 <= i < |w.collected| :: w.collected[i].id != id
  {
    forall i | 0 <= i < |w.collected|
      ensures w.collected[i].id != id
    {
      assert i in Versions(w, id) <==> IsVersionOf(w, id, i);
    }
  }

  /** Nothing but the reachable is placed, and nothing reachable is left. */
  lemma ExploredMeansReachable(w: World, white: set<Identifier>, roots: set<Identifier>, after: set<Identifier>)
    requires after <= white && LeavesNothing(w, white, after) && roots !! after
    requires forall id | id in white - after :: WhiteReachable(w, white, roots, id)
    ensures forall id :: id in white - after <==> WhiteReachable(w, white, roots, id)
  {
    forall id | WhiteReachable(w, white, roots, id)
      ensures id in white - after
    {
      var p :| IsWhitePath(w, white, roots, p) && p[|p| - 1] == id;
      FollowedToTheEnd(w, white, roots, after, p);
    }
  }

  lemma {:induction false} EntriesOfJoin(w: World, a: seq<Identifier>, b: seq<Identifier>)
    ensures EntriesOfAll(w, a + b) == EntriesOfAll(w, a) + EntriesOfAll(w, b)
  {
    if b == [] {
      assert a + b == a;
    } else {
      var front, last := b[..|b| - 1], b[|b| - 1];
      EntriesOfJoin(w, a, front);
      assert (a + b)[..|a + b| - 1] == a + front && (a + b)[|a + b| - 1] == last;
      Regroup(EntriesOfAll(w, a), EntriesOfAll(w, front), EntriesOf(w, last));
    }
  }

  lemma Regroup<T>(a: seq<T>, b: seq<T>, c: seq<T>)
    ensures a + b + c == a + (b + c)
  {
  }

  lemma EntriesAdded(w: World, visited: seq<Identifier>, visited': seq<Identifier>, done: seq<Placed>,
      items: seq<Placed>, items': seq<Placed>)
    requires visited <= visited'
    requires done + items == EntriesOfAll(w, visited) && done + items' == EntriesOfAll(w, visited')
    ensures items' == items + EntriesOfAll(w, visited'[|visited|..])
  {
    assert visited' == visited + visited'[|visited|..];
    EntriesOfJoin(w, visited, visited'[|visited|..]);
    SameTail(done, items, items', EntriesOfAll(w, visited'[|visited|..]));
  }

  lemma SameTail<T>(front: seq<T>, items: seq<T>, items': seq<T>, more: seq<T>)
    requires front + items' == (front + items) + more
    ensures items' == items + more
  {
    assert (front + items')[|front|..] == items';
    assert ((front + items) + more)[|front|..] == items + more;
  }

  // ----- Ordered resources of one type share a block -----

  /** Whether the next item is kept in the block of this one. */
  predicate GoesWithNext(w: World, i: nat)
    requires i < |w.collected|
  {
    && i < |w.collected| - 1
    && w.collected[i].ordered && w.collected[i + 1].ordered
    && w.collected[i].id.groupResource == w.collected[i + 1].id.groupResource
  }

  /** Records lo..hi are ordered resources of one type, listed one after the other. */
  ghost predicate IsOrderedRun(w: World, lo: nat, hi: nat) {
    lo <= hi <= |w.collected| && forall k | lo <= k < hi :: GoesWithNext(w, k)
  }

  /** In other words: all of them are ordered, and of the type of the first. */
  lemma {:induction false} WhatARunIs(w: World, lo: nat, hi: nat)
    requires lo < hi < |w.collected|
    ensures IsOrderedRun(w, lo, hi) <==>
              forall k | lo <= k <= hi ::
                w.collected[k].ordered && w.collected[k].id.groupResource == w.collected[lo].id.groupResource
  {
    if hi > lo + 1 {
      WhatARunIs(w, lo, hi - 1);
      assert IsOrderedRun(w, lo, hi) <==> IsOrderedRun(w, lo, hi - 1) && GoesWithNext(w, hi - 1);
    } else {
      assert IsOrderedRun(w, lo, hi) <==> GoesWithNext(w, lo);
    }
  }

  /** Ordered resources of one type end up in the block that was due when the first of them came up, or earlier. */
  ghost predicate OrderedStayTogether(w: World, submitted: seq<seq<Placed>>, items: seq<Placed>,
      blocksBefore: seq<nat>, n: nat)
  {
    forall lo, p {:trigger InBlockUpTo(submitted, items, blocksBefore[lo], FromRecord(p))}
      | 0 <= lo <= p < n && p < |w.collected| && lo < |blocksBefore| && IsOrderedRun(w, lo, p) && CanBeAdded(w, p) ::
      InBlockUpTo(submitted, items, blocksBefore[lo], FromRecord(p))
  }

  ghost predicate InBlockUpTo(submitted: seq<seq<Placed>>, items: seq<Placed>, last: nat, e: Placed) {
    || (exists b :: 0 <= b < |submitted| && b <= last && e in submitted[b])
    || (e in items && |submitted| <= last)
  }

  function Roots(w: World, n: nat): set<Identifier>
    requires n <= |w.collected|
  {
    set k | 0 <= k < n :: w.collected[k].id
  }

  /** With `white` left over, placed is what the first `n` records lead to. */
  ghost predicate SearchedAs(w: World, n: nat, white: set<Identifier>)
    requires n <= |w.collected|
  {
    && white <= Everything(w) && LeavesNothing(w, Everything(w), white) && Roots(w, n) !! white
    && forall id | id in Everything(w) - white :: WhiteReachable(w, Everything(w), Roots(w, n), id)
  }

  lemma StillReached(w: World, i: nat, white: set<Identifier>)
    requires i < |w.collected| && SearchedAs(w, i, white)
    ensures forall id | id in Everything(w) - white :: WhiteReachable(w, Everything(w), Roots(w, i + 1), id)
  {
    forall id | id in Everything(w) - white
      ensures WhiteReachable(w, Everything(w), Roots(w, i + 1), id)
    {
      ReachableMonotone(w, Everything(w), Roots(w, i + 1), Everything(w), Roots(w, i), id);
    }
  }

  /** What the first `n` collected records lead to. */
  ghost predicate Reached(w: World, n: nat, id: Identifier)
    requires n <= |w.collected|
  {
    WhiteReachable(w, Everything(w), Roots(w, n), id)
  }

  ghost predicate ReachedEntry(w: World, n: nat, e: Placed)
    requires n <= |w.collected|
  {
    match e
    case FromRecord(i) => i < |w.collected| && Reached(w, n, w.collected[i].id)
    case FromCluster(id) => Reached(w, n, id)
  }

  ghost predicate ReachedBlock(w: World, n: nat, block: seq<Placed>)
    requires n <= |w.collected|
  {
    forall e | e in block :: ReachedEntry(w, n, e)
  }

  /** The blocks handed over before record `lo` came up hold only what the records before it lead to. */
  ghost predicate Anchored(w: World, submitted: seq<seq<Placed>>, blocksBefore: seq<nat>) {
    && |blocksBefore| <= |w.collected|
    && (forall lo | 0 <= lo < |blocksBefore| :: blocksBefore[lo] <= |submitted|)
    && forall lo, b {:trigger ReachedBlock(w, lo, submitted[b])} | 0 <= lo < |blocksBefore| && 0 <= b < blocksBefore[lo] ::
         ReachedBlock(w, lo, submitted[b])
  }

  /** Nothing in the block is what the first `n` records lead to. */
  ghost predicate NewSince(w: World, n: nat, block: seq<Placed>)
    requires n <= |w.collected|
  {
    forall e | e in block :: !ReachedEntry(w, n, e)
  }

  /** The block holds what one run of ordered resources, often a single record, adds to what came before. */
  ghost predicate FromOneRun(w: World, block: seq<Placed>) {
    exists lo, hi :: 0 <= lo <= hi < |w.collected| && IsOrderedRun(w, lo, hi)
                     && ReachedBlock(w, hi + 1, block) && NewSince(w, lo, block)
  }

  /** The block being built when record `n` comes up holds what the run from `start` has added so far. */
  ghost predicate OpenRun(w: World, start: nat, n: nat, items: seq<Placed>) {
    items != [] ==> start <= n <= |w.collected| && IsOrderedRun(w, start, n) && NewSince(w, start, items)
  }

  ghost predicate RunDone(w: World, start: nat, i: nat, items: seq<Placed>) {
    && start <= i < |w.collected| && IsOrderedRun(w, start, i)
    && NewSince(w, start, items) && ReachedBlock(w, i + 1, items)
  }

  lemma StartRun(w: World, i: nat)
    requires i <= |w.collected|
    ensures IsOrderedRun(w, i, i)
  {
  }

  lemma NextRun(w: World, start: nat, i: nat, items: seq<Placed>)
    requires i < |w.collected|
    requires items != [] ==> RunDone(w, start, i, items) && GoesWithNext(w, i)
    ensures OpenRun(w, start, i + 1, items)
  {
  }

  ghost predicate AllFromOneRun(w: World, submitted: seq<seq<Placed>>) {
    forall b {:trigger FromOneRun(w, submitted[b])} | 0 <= b < |submitted| :: FromOneRun(w, submitted[b])
  }

  ghost predicate ShareBlock(submitted: seq<seq<Placed>>, d: Placed, e: Placed) {
    exists b :: 0 <= b < |submitted| && d in submitted[b] && e in submitted[b]
  }

  /** Ordered resources of one type share a block, but for those that records listed before them lead to. */
  ghost predicate RunsShareBlocks(w: World, submitted: seq<seq<Placed>>) {
    forall lo, p, q | 0 <= lo <= p < |w.collected| && lo <= q < |w.collected| && IsOrderedRun(w, lo, p) &&
                      IsOrderedRun(w, lo, q) && DueFrom(w, lo, p) && DueFrom(w, lo, q) ::
      ShareBlock(submitted, FromRecord(p), FromRecord(q))
  }

  ghost predicate DueFrom(w: World, lo: nat, p: nat)
    requires lo <= p < |w.collected|
  {
    CanBeAdded(w, p) && !Reached(w, lo, w.collected[p].id)
  }

  ghost predicate NoRunGoesOn(w: World, n: nat) {
    forall lo | 0 <= lo < n :: !IsOrderedRun(w, lo, n)
  }

  /** While a run continues, nothing has been handed over since it began. */
  ghost predicate Pending(w: World, blocks: nat, blocksBefore: seq<nat>, n: nat) {
    forall lo | 0 <= lo < n && lo < |blocksBefore| && n < |w.collected| && IsOrderedRun(w, lo, n) ::
      blocksBefore[lo] == blocks
  }

  lemma FlaggedIsNotWhite(w: World, flags: seq<bool>, fetched: set<Identifier>, i: nat)
    requires Uniform(w, flags) && i < |flags| && flags[i]
    ensures w.collected[i].id !in White(w, flags, fetched)
  {
    var id := w.collected[i].id;
    assert i in Versions(w, id) <==> IsVersionOf(w, id, i);
    CollectedWhite(w, flags, fetched, id);
  }

  lemma FlaggedStaysFlagged(w: World, flags: seq<bool>, fetched: set<Identifier>, flags': seq<bool>,
      fetched': set<Identifier>, k: nat)
    requires Uniform(w, flags) && Uniform(w, flags') && White(w, flags', fetched') <= White(w, flags, fetched)
    requires k < |flags| && flags[k]
    ensures flags'[k]
  {
    var id := w.collected[k].id;
    assert k in Versions(w, id) <==> IsVersionOf(w, id, k);
    CollectedWhite(w, flags, fetched, id);
    CollectedWhite(w, flags', fetched', id);
  }

  lemma OneMoreRecord(w: World, submitted: seq<seq<Placed>>, items: seq<Placed>, items': seq<Placed>,
      blocksBefore: seq<nat>, i: nat)
    requires i < |w.collected| && |blocksBefore| == i + 1 && blocksBefore[i] == |submitted|
    requires OrderedStayTogether(w, submitted, items, blocksBefore[..i], i)
    requires Pending(w, |submitted|, blocksBefore[..i], i)
    requires items <= items'
    requires CanBeAdded(w, i) ==> FromRecord(i) in Concat(submitted) + items'
    ensures OrderedStayTogether(w, submitted, items', blocksBefore, i + 1)
    ensures GoesWithNext(w, i) ==> Pending(w, |submitted|, blocksBefore, i + 1)
    ensures !GoesWithNext(w, i) ==> NoRunGoesOn(w, i + 1)
  {
    forall lo | 0 <= lo <= i && IsOrderedRun(w, lo, i)
      ensures blocksBefore[lo] == |submitted|
    {
      if lo < i {
        assert blocksBefore[..i][lo] == |submitted|;
      }
    }
    forall lo, p | 0 <= lo <= p < i + 1 && IsOrderedRun(w, lo, p) && CanBeAdded(w, p)
      ensures InBlockUpTo(submitted, items', blocksBefore[lo], FromRecord(p))
    {
      if p < i {
        assert InBlockUpTo(submitted, items, blocksBefore[..i][lo], FromRecord(p));
      } else if FromRecord(p) !in items' {
        InSomeBlock(submitted, FromRecord(p));
      }
    }
    forall lo | 0 <= lo <= i && IsOrderedRun(w, lo, i + 1)
      ensures GoesWithNext(w, i) && IsOrderedRun(w, lo, i)
    {
    }
  }

  lemma HandOver(w: World, submitted: seq<seq<Placed>>, items: seq<Placed>, blocksBefore: seq<nat>, n: nat)
    requires OrderedStayTogether(w, submitted, items, blocksBefore, n)
    ensures OrderedStayTogether(w, submitted + [items], [], blocksBefore, n)
  {
    var after := submitted + [items];
    forall last: nat, e | InBlockUpTo(submitted, items, last, e)
      ensures InBlockUpTo(after, [], last, e)
    {
      if b :| 0 <= b < |submitted| && b <= last && e in submitted[b] {
        assert after[b] == submitted[b];
      } else {
        assert after[|submitted|] == items;
      }
    }
  }

  lemma HandOverRun(w: World, submitted: seq<seq<Placed>>, items: seq<Placed>, blocksBefore: seq<nat>, start: nat,
      i: nat)
    requires Anchored(w, submitted, blocksBefore) && AllFromOneRun(w, submitted) && RunDone(w, start, i, items)
    ensures Anchored(w, submitted + [items], blocksBefore) && AllFromOneRun(w, submitted + [items])
  {
    var after := submitted + [items];
    assert FromOneRun(w, items);
    forall b | 0 <= b < |after|
      ensures FromOneRun(w, after[b])
    {
    }
    forall lo, b | 0 <= lo < |blocksBefore| && 0 <= b < blocksBefore[lo]
      ensures ReachedBlock(w, lo, after[b])
    {
      assert ReachedBlock(w, lo, submitted[b]);
    }
  }

  // ----- The partition -----

  lemma {:induction false} InSomeBlock(blocks: seq<seq<Placed>>, e: Placed)
    ensures e in Concat(blocks) <==> exists b :: 0 <= b < |blocks| && e in blocks[b]
  {
    if blocks != [] {
      var front := blocks[..|blocks| - 1];
      InSomeBlock(front, e);
      if b :| 0 <= b < |blocks| && e in blocks[b] {
        assert b < |front| ==> e in front[b];
      }
    }
  }

  /** An entry belongs to the placed identifiers exactly if it is one of theirs. */
  lemma {:induction false} EntriesMembers(w: World, ids: seq<Identifier>, e: Placed)
    ensures e in EntriesOfAll(w, ids) <==>
            match e
            case FromRecord(i) => CanBeAdded(w, i) && w.collected[i].id in ids
            case FromCluster(id) => id in ids && !IsCollected(w, id) && Admits(w, id)
  {
    if ids != [] {
      var last := ids[|ids| - 1];
      EntriesMembers(w, ids[..|ids| - 1], e);
      assert ids == ids[..|ids| - 1] + [last];
      EntryOfOne(w, last, e);
    }
  }

  lemma EntryOfOne(w: World, id: Identifier, e: Placed)
    ensures e in EntriesOf(w, id) <==>
            match e
            case FromRecord(i) => CanBeAdded(w, i) && w.collected[i].id == id
            case FromCluster(x) => x == id && !IsCollected(w, id) && Admits(w, id)
  {
    var r := Addable(w, id);
    if e.FromRecord? {
      assert e.index in r <==> IsVersionOf(w, id, e.index) && CanBeAdded(w, e.index);
      assert e.index in Versions(w, id) <==> IsVersionOf(w, id, e.index);
      if e.index in r {
        var k :| 0 <= k < |r| && r[k] == e.index;
        assert AsRecords(r)[k] == e;
      }
    }
  }

  lemma {:induction false} EntriesNeverRepeat(w: World, ids: seq<Identifier>)
    requires NoRepeats(ids)
    ensures NoRepeats(EntriesOfAll(w, ids))
  {
    if ids != [] {
      var front, last := ids[..|ids| - 1], ids[|ids| - 1];
      EntriesNeverRepeat(w, front);
      var a, b := EntriesOfAll(w, front), EntriesOf(w, last);
      assert NoRepeats(b);
      forall i, j | 0 <= i < |a| && 0 <= j < |b|
        ensures a[i] != b[j]
      {
        assert a[i] in a && b[j] in b;
        EntriesMembers(w, front, a[i]);
        EntryOfOne(w, last, b[j]);
      }
    }
  }

  lemma {:induction false} BlockOf(blocks: seq<seq<Placed>>, b: nat, k: nat) returns (at: nat)
    requires b < |blocks| && k < |blocks[b]|
    ensures at < |Concat(blocks)| && Concat(blocks)[at] == blocks[b][k]
    ensures b + 1 == |blocks| ==> at == |Concat(blocks[..b])| + k
    ensures b + 1 < |blocks| ==> at < |Concat(blocks[..|blocks| - 1])|
  {
    if b + 1 == |blocks| {
      at := |Concat(blocks[..b])| + k;
    } else {
      at := BlockOf(blocks[..|blocks| - 1], b, k);
    }
  }

  /** Without repetition in all, no entry is in two blocks, or twice in one. */
  lemma {:induction false} NoEntryTwice(blocks: seq<seq<Placed>>, b: nat, k: nat, c: nat, l: nat)
    requires NoRepeats(Concat(blocks))
    requires b < |blocks| && k < |blocks[b]| && c < |blocks| && l < |blocks[c]|
    requires blocks[b][k] == blocks[c][l]
    ensures b == c && k == l
  {
    var x := BlockOf(blocks, b, k);
    var y := BlockOf(blocks, c, l);
    assert x == y;
    if b + 1 < |blocks| && c + 1 < |blocks| {
      var front := blocks[..|blocks| - 1];
      assert forall i | 0 <= i < |Concat(front)| :: Concat(blocks)[i] == Concat(front)[i];
      NoEntryTwice(front, b, k, c, l);
    }
  }

  /** After the pass every addable record is in exactly one block, at one place. */
  lemma BlocksPartitionTheRecords(kb: KubernetesBackupper, i: nat)
    requires kb.Valid() && kb.items == []
    requires forall k | 0 <= k < |kb.w.collected| :: kb.inItemBlockOrExcluded[k]
    requires CanBeAdded(kb.w, i)
    ensures exists b, k :: 0 <= b < |kb.submitted| && 0 <= k < |kb.submitted[b]| && kb.submitted[b][k] == FromRecord(i)
    ensures forall b, k, c, l | 0 <= b < |kb.submitted| && 0 <= k < |kb.submitted[b]| && 0 <= c < |kb.submitted| &&
              0 <= l < |kb.submitted[c]| && kb.submitted[b][k] == kb.submitted[c][l] :: b == c && k == l
  {
    kb.RecordIsPlaced(i);
    var blocks := kb.submitted;
    assert Concat(blocks) + [] == Concat(blocks);
    InSomeBlock(blocks, FromRecord(i));
    EntriesNeverRepeat(kb.w, kb.visited);
    forall b, k, c, l | 0 <= b < |blocks| && 0 <= k < |blocks[b]| && 0 <= c < |blocks| && 0 <= l < |blocks[c]| &&
        blocks[b][k] == blocks[c][l]
      ensures b == c && k == l
    {
      NoEntryTwice(blocks, b, k, c, l);
    }
  }

  lemma AnchoredRunsShare(w: World, submitted: seq<seq<Placed>>, blocksBefore: seq<nat>)
    requires |blocksBefore| == |w.collected| && OrderedStayTogether(w, submitted, [], blocksBefore, |w.collected|)
    requires Anchored(w, submitted, blocksBefore)
    ensures RunsShareBlocks(w, submitted)
  {
    forall lo, p | 0 <= lo <= p < |w.collected| && IsOrderedRun(w, lo, p) && DueFrom(w, lo, p)
      ensures blocksBefore[lo] < |submitted| && FromRecord(p) in submitted[blocksBefore[lo]]
    {
      var e := FromRecord(p);
      assert InBlockUpTo(submitted, [], blocksBefore[lo], e);
      var b :| 0 <= b < |submitted| && b <= blocksBefore[lo] && e in submitted[b];
      assert !ReachedEntry(w, lo, e);
      assert b < blocksBefore[lo] ==> ReachedBlock(w, lo, submitted[b]);
    }
    forall lo, p, q | 0 <= lo <= p < |w.collected| && lo <= q < |w.collected| && IsOrderedRun(w, lo, p) &&
        IsOrderedRun(w, lo, q) && DueFrom(w, lo, p) && DueFrom(w, lo, q)
      ensures ShareBlock(submitted, FromRecord(p), FromRecord(q))
    {
      assert FromRecord(p) in submitted[blocksBefore[lo]] && FromRecord(q) in submitted[blocksBefore[lo]];
    }
  }

  ghost function LeadOf(w: World, v: seq<nat>): Option<seq<Answer>> {
    var r := AddableOf(w, v);
    if r == [] then None else
      assert r[0] in r;
      Some(w.collected[r[0]].answers)
  }
}
