/**
 Building item blocks: a depth-first search over the related items that plugins report.

 The plugins' answers and the cluster's content do not change while the blocks are built. A collected identifier may
 have several records, one per API version; the first one that can be added leads the search onwards.
 */
module ItemBlocks {

  datatype Identifier = Identifier(groupResource: string, namespace: string, name: string)

  /** What one item block action says about an object. */
  datatype Answer = NotUsed | Failed | Related(ids: seq<Identifier>)

  /** A collected resource; `answers` are those of the object stored in its file. */
  datatype Record = Record(id: Identifier, ordered: bool, readable: bool, included: bool, answers: seq<Answer>)
  {
    predicate CanBeAdded() {
      readable && included
    }
  }

  /** An item that can be got from the cluster. */
  datatype ClusterItem = ClusterItem(included: bool, answers: seq<Answer>)

  datatype World = World(collected: seq<Record>, cluster: map<Identifier, ClusterItem>)

  /** One entry of a block. */
  datatype Placed = FromRecord(index: nat) | FromCluster(id: Identifier)

  // ----- The graph -----

  ghost predicate Ascending(v: seq<nat>) {
    forall a, b | 0 <= a < b < |v| :: v[a] < v[b]
  }

  predicate IsVersionOf(w: World, id: Identifier, i: int) {
    0 <= i < |w.collected| && w.collected[i].id == id
  }

  /** The records of an identifier, in list order. */
  function VersionsUpTo(w: World, id: Identifier, n: nat): (v: seq<nat>)
    requires n <= |w.collected|
    ensures forall i :: i in v <==> i < n && IsVersionOf(w, id, i)
    ensures Ascending(v)
  {
    if n == 0 then [] else
      var v := VersionsUpTo(w, id, n - 1);
      assert forall a | 0 <= a < |v| :: v[a] in v;
      if w.collected[n - 1].id == id then v + [n - 1] else v
  }

  function Versions(w: World, id: Identifier): (v: seq<nat>)
    ensures forall i :: i in v <==> IsVersionOf(w, id, i)
    ensures Ascending(v)
  {
    VersionsUpTo(w, id, |w.collected|)
  }

  predicate IsCollected(w: World, id: Identifier) {
    Versions(w, id) != []
  }

  predicate CanBeAdded(w: World, i: int) {
    0 <= i < |w.collected| && w.collected[i].CanBeAdded()
  }

  /** The ones of `v` that go into the block. */
  function AddableOf(w: World, v: seq<nat>): (r: seq<nat>)
    ensures forall i :: i in r <==> i in v && CanBeAdded(w, i)
    ensures Ascending(v) ==> Ascending(r)
  {
    if v == [] then [] else
      var front, last := v[..|v| - 1], v[|v| - 1];
      var r := AddableOf(w, front);
      assert v == front + [last];
      SomeOfAscending(front, last, r);
      if CanBeAdded(w, last) then r + [last] else r
  }

  lemma SomeOfAscending(front: seq<nat>, last: nat, r: seq<nat>)
    requires forall i | i in r :: i in front
    requires Ascending(front) ==> Ascending(r)
    ensures Ascending(front + [last]) ==> Ascending(front) && Ascending(r) && Ascending(r + [last])
  {
    var all := front + [last];
    if Ascending(all) {
      assert forall i, j | 0 <= i < j < |front| :: all[i] == front[i] && all[j] == front[j];
      forall a | 0 <= a < |r|
        ensures r[a] < last
      {
        assert r[a] in r;
        var k :| 0 <= k < |front| && front[k] == r[a];
        assert all[k] < all[|front|];
      }
    }
  }

  function Addable(w: World, id: Identifier): (r: seq<nat>)
    ensures forall i :: i in r <==> IsVersionOf(w, id, i) && CanBeAdded(w, i)
    ensures Ascending(r)
  {
    AddableOf(w, Versions(w, id))
  }

  /** Whether placing the identifier adds anything to the block. */
  predicate Admits(w: World, id: Identifier) {
    if IsCollected(w, id) then Addable(w, id) != [] else id in w.cluster && w.cluster[id].included
  }

  /** The answers the search follows from `id`. */
  function AnswersAt(w: World, id: Identifier): seq<Answer> {
    if !Admits(w, id) then []
    else if IsCollected(w, id) then
      assert Addable(w, id)[0] in Addable(w, id);
      w.collected[Addable(w, id)[0]].answers
    else w.cluster[id].answers
  }

  /** An identifier goes into a block through its records that can be read and are included; only one that has no record
      at all is got from the cluster. */
  lemma WhatIsAdmitted(w: World, id: Identifier)
    ensures Admits(w, id) <==>
              || (exists i :: 0 <= i < |w.collected| && w.collected[i].id == id
                              && w.collected[i].readable && w.collected[i].included)
              || ((forall i | 0 <= i < |w.collected| :: w.collected[i].id != id)
                  && id in w.cluster && w.cluster[id].included)
  {
    if IsCollected(w, id) {
      assert Versions(w, id)[0] in Versions(w, id);
      if i :| 0 <= i < |w.collected| && w.collected[i].id == id && w.collected[i].readable && w.collected[i].included {
        assert IsVersionOf(w, id, i) && CanBeAdded(w, i) && i in Addable(w, id);
      }
      if Addable(w, id) != [] {
        assert Addable(w, id)[0] in Addable(w, id);
      }
    } else {
      forall i | 0 <= i < |w.collected|
        ensures w.collected[i].id != id
      {
        assert i in Versions(w, id) <==> IsVersionOf(w, id, i);
      }
    }
  }

  /** The search goes on from the answers for the first record that can be read and is included. */
  lemma FirstAddableLeads(w: World, id: Identifier, i: nat)
    requires i < |w.collected| && w.collected[i].id == id && w.collected[i].readable && w.collected[i].included
    requires forall j | 0 <= j < i && w.collected[j].id == id :: !(w.collected[j].readable && w.collected[j].included)
    ensures AnswersAt(w, id) == w.collected[i].answers
  {
    var r := Addable(w, id);
    assert IsVersionOf(w, id, i) && CanBeAdded(w, i) && i in r;
    assert i in Versions(w, id);
    assert r[0] in r && IsVersionOf(w, id, r[0]) && CanBeAdded(w, r[0]);
    var k :| 0 <= k < |r| && r[k] == i;
  }

  function RelatedBy(answers: seq<Answer>): set<Identifier> {
    set a, k | 0 <= a < |answers| && answers[a].Related? && 0 <= k < |answers[a].ids| :: answers[a].ids[k]
  }

  function Next(w: World, id: Identifier): set<Identifier> {
    RelatedBy(AnswersAt(w, id))
  }

  function AsRecords(v: seq<nat>): seq<Placed> {
    seq(|v|, i requires 0 <= i < |v| => FromRecord(v[i]))
  }

  /** The block entries of one identifier. */
  function EntriesOf(w: World, id: Identifier): seq<Placed> {
    if !Admits(w, id) then []
    else if IsCollected(w, id) then AsRecords(Addable(w, id))
    else [FromCluster(id)]
  }

  function EntriesOfAll(w: World, ids: seq<Identifier>): seq<Placed> {
    if ids == [] then [] else EntriesOfAll(w, ids[..|ids| - 1]) + EntriesOf(w, ids[|ids| - 1])
  }

  // ----- White paths -----

  /** A path from `roots` through `white`, along which every item but perhaps the last was added. */
  ghost predicate IsWhitePath(w: World, white: set<Identifier>, roots: set<Identifier>, p: seq<Identifier>) {
    && p != [] && p[0] in roots
    && (forall k | 0 <= k < |p| :: p[k] in white)
    && (forall k | 0 <= k < |p| - 1 :: Admits(w, p[k]) && p[k + 1] in Next(w, p[k]))
  }

  ghost predicate WhiteReachable(w: World, white: set<Identifier>, roots: set<Identifier>, id: Identifier) {
    exists p :: IsWhitePath(w, white, roots, p) && p[|p| - 1] == id
  }

  /** Whatever is reachable from an added item is reachable from where that item was. */
  lemma ReachableThrough(w: World, white: set<Identifier>, roots: set<Identifier>, via: Identifier,
      white': set<Identifier>, id: Identifier)
    requires WhiteReachable(w, white, roots, via) && Admits(w, via) && white' <= white
    requires WhiteReachable(w, white', Next(w, via), id)
    ensures WhiteReachable(w, white, roots, id)
  {
    var p :| IsWhitePath(w, white, roots, p) && p[|p| - 1] == via;
    var q :| IsWhitePath(w, white', Next(w, via), q) && q[|q| - 1] == id;
    var r := p + q;
    forall k | 0 <= k < |r| - 1
      ensures Admits(w, r[k]) && r[k + 1] in Next(w, r[k])
    {
      if k < |p| - 1 {
        assert r[k] == p[k] && r[k + 1] == p[k + 1];
      } else if k == |p| - 1 {
        assert r[k] == via && r[k + 1] == q[0];
      } else {
        assert r[k] == q[k - |p|] && r[k + 1] == q[k - |p| + 1];
      }
    }
    assert IsWhitePath(w, white, roots, r) && r[|r| - 1] == id;
  }

  lemma ReachableMonotone(w: World, white: set<Identifier>, roots: set<Identifier>, white': set<Identifier>,
      roots': set<Identifier>, id: Identifier)
    requires white' <= white && roots' <= roots && WhiteReachable(w, white', roots', id)
    ensures WhiteReachable(w, white, roots, id)
  {
    var p :| IsWhitePath(w, white', roots', p) && p[|p| - 1] == id;
    assert IsWhitePath(w, white, roots, p);
  }

  lemma ReachableAtOnce(w: World, white: set<Identifier>, roots: set<Identifier>, id: Identifier)
    requires id in roots && id in white
    ensures WhiteReachable(w, white, roots, id)
  {
    assert IsWhitePath(w, white, roots, [id]);
  }

  /** The search left nothing white behind what it has placed. */
  ghost predicate LeavesNothing(w: World, white: set<Identifier>, after: set<Identifier>) {
    forall id | id in white - after && Admits(w, id) :: Next(w, id) !! after
  }

  /** If nothing was left behind, every white path has been followed to its end. */
  lemma {:induction false} FollowedToTheEnd(w: World, white: set<Identifier>, roots: set<Identifier>,
      after: set<Identifier>, p: seq<Identifier>)
    requires after <= white && LeavesNothing(w, white, after) && roots !! after
    requires IsWhitePath(w, white, roots, p)
    ensures p[|p| - 1] !in after
    decreases |p|
  {
    if |p| > 1 {
      var front := p[..|p| - 1];
      assert forall k | 0 <= k < |front| :: front[k] == p[k];
      FollowedToTheEnd(w, white, roots, after, front);
      assert p[|p| - 2] == front[|front| - 1];
      assert p[|p| - 2 + 1] in Next(w, p[|p| - 2]);
    }
  }

  lemma LeavingNothingComposes(w: World, white: set<Identifier>, mid: set<Identifier>, after: set<Identifier>)
    requires after <= mid <= white
    requires LeavesNothing(w, white, mid) && LeavesNothing(w, mid, after)
    ensures LeavesNothing(w, white, after)
  {
  }

  lemma SubsetSize<T>(a: set<T>, b: set<T>)
    requires a <= b
    ensures |a| <= |b|
    ensures a != b ==> |a| < |b|
  {
    assert b == a + (b - a);
  }
}
