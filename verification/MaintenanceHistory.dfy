/** The bounded history of repository maintenance runs. Start times are always set. */
module MaintenanceHistory {
  import opened Options

  datatype Status = Status(succeeded: bool, start: int, complete: Option<int>, message: string)

  // ----- What the history should hold -----

  /** Later entries replace earlier ones with the same start time. */
  function Insert(tree: map<int, Status>, history: seq<Status>): map<int, Status> {
    if history == [] then tree
    else Insert(tree, history[..|history| - 1])[history[|history| - 1].start := history[|history| - 1]]
  }

  function Starts(history: seq<Status>): (r: seq<int>)
    ensures |r| == |history| && forall i | 0 <= i < |r| :: r[i] == history[i].start
  {
    seq(|history|, i requires 0 <= i < |history| => history[i].start)
  }

  ghost function StartSet(history: seq<Status>): set<int> {
    set s | s in history :: s.start
  }

  /** Everything known, the incoming records winning ties. */
  function Union(coming: seq<Status>, cur: seq<Status>): map<int, Status> {
    Insert(Insert(map[], cur), coming)
  }

  ghost predicate Ascending(s: seq<int>) {
    forall i, j | 0 <= i < j < |s| :: s[i] < s[j]
  }

  /** `top` holds the `limit` greatest of `keys`, or all of them. */
  ghost predicate IsTop(keys: set<int>, limit: nat, top: set<int>) {
    && top <= keys && |top| == (if |keys| <= limit then |keys| else limit)
    && forall t, x | t in keys && t !in top && x in top :: t < x
  }

  /** The entries of `r` are entries of `tree`. */
  ghost predicate From(tree: map<int, Status>, r: seq<Status>) {
    forall s | s in r :: s.start in tree && tree[s.start] == s
  }

  /** `r` holds the `limit` newest entries of `tree` in ascending order. */
  ghost predicate IsNewest(tree: map<int, Status>, limit: nat, r: seq<Status>) {
    Ascending(Starts(r)) && From(tree, r) && IsTop(tree.Keys, limit, StartSet(r))
  }

  /** The newest entries taken off, newest first. */
  ghost predicate IsDrained(tree: map<int, Status>, left: map<int, Status>, taken: seq<Status>) {
    && left == tree - StartSet(taken) && From(tree, taken)
    && (forall i, j | 0 <= i < j < |taken| :: taken[j].start < taken[i].start)
    && (forall t, x | t in left.Keys && x in StartSet(taken) :: t < x)
    && |StartSet(taken)| == |taken|
  }

  lemma SomeMember<T>(s: set<T>) returns (x: T)
    requires s != {}
    ensures x in s
  {
    x :| x in s;
  }

  lemma {:induction false} MaxExists(keys: set<int>)
    requires keys != {}
    ensures exists k :: k in keys && forall j | j in keys :: j <= k
  {
    var x := SomeMember(keys);
    var rest := keys - {x};
    assert keys == rest + {x};
    if rest != {} {
      MaxExists(rest);
      var k :| k in rest && forall j | j in rest :: j <= k;
      var m := if k < x then x else k;
      assert m in keys && forall j | j in keys :: j <= m;
    } else {
      assert x in keys && forall j | j in keys :: j <= x;
    }
  }

  method DeleteMax(tree: map<int, Status>) returns (item: Status, left: map<int, Status>)
    requires tree.Keys != {} && forall t | t in tree :: tree[t].start == t
    ensures item.start in tree && tree[item.start] == item && left == tree - {item.start}
    ensures forall t | t in tree :: t <= item.start
  {
    MaxExists(tree.Keys);
    var k :| k in tree.Keys && forall j | j in tree.Keys :: j <= k;
    item, left := tree[k], tree - {k};
  }

  function Reverse(s: seq<Status>): (r: seq<Status>)
    ensures |r| == |s| && forall i | 0 <= i < |s| :: r[i] == s[|s| - 1 - i]
  {
    seq(|s|, i requires 0 <= i < |s| => s[|s| - 1 - i])
  }

  /** Nothing to learn: no record came in, or `cur` already lists the same runs. */
  ghost predicate Settled(coming: seq<Status>, cur: seq<Status>, limit: nat) {
    || coming == []
    || Starts(coming) == Starts(cur)
    || exists newest :: IsNewest(Union(coming, cur), limit, newest) && Starts(newest) == Starts(cur)
  }

  /** Merges what the jobs report into what is recorded; None when there is nothing to change. */
  method ConsolidateHistory(coming: seq<Status>, cur: seq<Status>, limit: nat) returns (r: Option<seq<Status>>)
    ensures r.Some? ==> IsNewest(Union(coming, cur), limit, r.value)
    ensures r.None? <==> Settled(coming, cur, limit)
  {
    if |coming| == 0 {
      return None;
    }
    if Starts(cur) == Starts(coming) {
      return None;
    }
    var consolidator := map[];
    for i := 0 to |cur|
      invariant consolidator == Insert(map[], cur[..i])
    {
      assert cur[..i + 1][..i] == cur[..i];
      consolidator := consolidator[cur[i].start := cur[i]];
    }
    assert cur[..|cur|] == cur;
    for i := 0 to |coming|
      invariant consolidator == Insert(Insert(map[], cur), coming[..i])
    {
      assert coming[..i + 1][..i] == coming[..i];
      consolidator := consolidator[coming[i].start := coming[i]];
    }
    assert coming[..|coming|] == coming;
    KeyedByStart(map[], cur);
    KeyedByStart(Insert(map[], cur), coming);
    var truncated := Drain(consolidator, limit);
    forall newest | IsNewest(Union(coming, cur), limit, newest)
      ensures Starts(newest) == Starts(truncated)
    {
      NewestIsUnique(consolidator, limit, newest, truncated);
    }
    if Starts(cur) == Starts(truncated) {
      return None;
    }
    return Some(truncated);
  }

  method Drain(tree: map<int, Status>, limit: nat) returns (truncated: seq<Status>)
    requires forall t | t in tree :: tree[t].start == t
    ensures IsNewest(tree, limit, truncated)
  {
    var consolidator := tree;
    truncated := [];
    while consolidator.Keys != {}
      invariant IsDrained(tree, consolidator, truncated)
      invariant |truncated| <= limit
      decreases consolidator.Keys
    {
      if |truncated| == limit {
        break;
      }
      var item, left := DeleteMax(consolidator);
      DrainOneMore(tree, consolidator, truncated, item);
      consolidator := left;
      truncated := truncated + [item];
    }
    DrainedIsNewest(tree, consolidator, truncated, limit);
    truncated := Reverse(truncated);
  }

  lemma {:induction false} KeyedByStart(tree: map<int, Status>, history: seq<Status>)
    requires forall t | t in tree :: tree[t].start == t
    ensures forall t | t in Insert(tree, history) :: Insert(tree, history)[t].start == t
    ensures Insert(tree, history).Keys == tree.Keys + StartSet(history)
  {
    if history != [] {
      var front, last := history[..|history| - 1], history[|history| - 1];
      KeyedByStart(tree, front);
      StartSetGrows(front, last);
      assert history == front + [last];
    }
  }

  lemma StartSetGrows(history: seq<Status>, last: Status)
    ensures StartSet(history + [last]) == StartSet(history) + {last.start}
  {
    forall t
      ensures t in StartSet(history + [last]) <==> t in StartSet(history) || t == last.start
    {
      if t in StartSet(history) {
        var s :| s in history && s.start == t;
        assert s in history + [last];
      }
      assert last in history + [last];
    }
  }

  lemma DrainOneMore(tree: map<int, Status>, left: map<int, Status>, taken: seq<Status>, item: Status)
    requires IsDrained(tree, left, taken)
    requires item.start in left && left[item.start] == item && forall t | t in left :: t <= item.start
    ensures IsDrained(tree, left - {item.start}, taken + [item])
  {
    StartSetGrows(taken, item);
    assert item.start !in StartSet(taken);
    forall i | 0 <= i < |taken|
      ensures item.start < taken[i].start
    {
      assert taken[i] in taken && taken[i].start in StartSet(taken);
    }
  }

  lemma ReversedMembers(s: seq<Status>)
    ensures forall e :: e in Reverse(s) <==> e in s
    ensures StartSet(Reverse(s)) == StartSet(s)
  {
    var r := Reverse(s);
    forall e
      ensures e in r <==> e in s
    {
      if e in r {
        var i :| 0 <= i < |r| && r[i] == e;
        assert s[|r| - 1 - i] == e;
      }
      if e in s {
        var i :| 0 <= i < |r| && s[i] == e;
        assert r[|r| - 1 - i] == e;
      }
    }
  }

  lemma DrainedIsTop(tree: map<int, Status>, left: map<int, Status>, taken: seq<Status>, limit: nat)
    requires IsDrained(tree, left, taken) && |taken| <= limit && (left.Keys == {} || |taken| == limit)
    ensures IsTop(tree.Keys, limit, StartSet(taken))
  {
    var top := StartSet(taken);
    forall t | t in top
      ensures t in tree.Keys
    {
      var s :| s in taken && s.start == t;
    }
    Remainder(left.Keys, tree.Keys, top);
    forall t, x | t in tree.Keys && t !in top && x in top
      ensures t < x
    {
      assert t in left.Keys;
    }
  }

  lemma DrainedIsNewest(tree: map<int, Status>, left: map<int, Status>, taken: seq<Status>, limit: nat)
    requires IsDrained(tree, left, taken) && |taken| <= limit && (left.Keys == {} || |taken| == limit)
    ensures IsNewest(tree, limit, Reverse(taken))
  {
    DrainedIsTop(tree, left, taken, limit);
    ReversedMembers(taken);
  }

  lemma Remainder<T>(left: set<T>, all: set<T>, top: set<T>)
    requires left == all - top && top <= all
    ensures |all| == |top| + |left|
  {
    assert all == top + left;
  }

  // ----- Once is enough -----

  lemma LastIsGreatest(s: seq<int>, t: int)
    requires Ascending(s) && s != []
    ensures t in s ==> t <= s[|s| - 1]
    ensures t in s[..|s| - 1] <==> t in s && t < s[|s| - 1]
  {
    var last := |s| - 1;
    if t in s && t < s[last] {
      var i :| 0 <= i < |s| && s[i] == t;
      assert s[..last][i] == t;
    }
  }

  lemma SameEmptiness(a: seq<int>, b: seq<int>)
    requires forall t :: t in a <==> t in b
    ensures a == [] <==> b == []
  {
    if a != [] {
      var t := a[0];
      assert t in a;
    }
    if b != [] {
      var t := b[0];
      assert t in b;
    }
  }

  lemma {:induction false} AscendingIsUnique(a: seq<int>, b: seq<int>)
    requires Ascending(a) && Ascending(b) && forall t :: t in a <==> t in b
    ensures a == b
  {
    if a == [] || b == [] {
      SameEmptiness(a, b);
    } else {
      var lastA, lastB := a[|a| - 1], b[|b| - 1];
      LastIsGreatest(a, lastB);
      LastIsGreatest(b, lastA);
      assert lastA in b && lastB in a;
      var frontA, frontB := a[..|a| - 1], b[..|b| - 1];
      forall t
        ensures t in frontA <==> t in frontB
      {
        LastIsGreatest(a, t);
        LastIsGreatest(b, t);
      }
      AscendingIsUnique(frontA, frontB);
      assert a == frontA + [lastA] && b == frontB + [lastB];
    }
  }

  lemma StartsMembers(history: seq<Status>, t: int)
    ensures t in Starts(history) <==> t in StartSet(history)
  {
    if t in Starts(history) {
      var i :| 0 <= i < |history| && Starts(history)[i] == t;
      assert history[i] in history;
    }
    if t in StartSet(history) {
      var s :| s in history && s.start == t;
      var i :| 0 <= i < |history| && history[i] == s;
      assert Starts(history)[i] == t;
    }
  }

  lemma SameStarts(a: seq<Status>, b: seq<Status>)
    requires Ascending(Starts(a)) && Ascending(Starts(b)) && StartSet(a) == StartSet(b)
    ensures Starts(a) == Starts(b)
  {
    forall t
      ensures t in Starts(a) <==> t in Starts(b)
    {
      StartsMembers(a, t);
      StartsMembers(b, t);
    }
    AscendingIsUnique(Starts(a), Starts(b));
  }

  lemma {:induction false} NoStartTwice(history: seq<Status>)
    requires Ascending(Starts(history))
    ensures |StartSet(history)| == |history|
  {
    if history != [] {
      var front, last := history[..|history| - 1], history[|history| - 1];
      assert history == front + [last];
      forall i, j | 0 <= i < j < |front|
        ensures Starts(front)[i] < Starts(front)[j]
      {
        assert Starts(history)[i] < Starts(history)[j];
      }
      NoStartTwice(front);
      StartSetGrows(front, last);
      LastIsGreatest(Starts(history), last.start);
      StartsMembers(front, last.start);
      assert Starts(history)[..|front|] == Starts(front);
    } else {
      assert StartSet(history) == {};
    }
  }

  /** A history that is the newest part of what is known is bounded, and full unless everything fits. */
  lemma NewestIsBounded(tree: map<int, Status>, limit: nat, r: seq<Status>)
    requires IsNewest(tree, limit, r)
    ensures |r| == if |tree.Keys| <= limit then |tree.Keys| else limit
  {
    NoStartTwice(r);
  }

  lemma EachHasMore<T>(a: set<T>, b: set<T>)
    requires |a| == |b| && a != b
    ensures a - b != {} && b - a != {}
  {
    SetSizes(a * b, a);
    SetSizes(a * b, b);
    assert a == a * b + (a - b) && b == a * b + (b - a);
  }

  lemma TopIsUnique(keys: set<int>, limit: nat, a: set<int>, b: set<int>)
    requires IsTop(keys, limit, a) && IsTop(keys, limit, b)
    ensures a == b
  {
    if a != b {
      EachHasMore(a, b);
      var t := SomeMember(a - b);
      var x := SomeMember(b - a);
      assert false;
    }
  }

  /** What is on top stays on top when others, but none of it, are taken away. */
  lemma TopOfLess(keys: set<int>, limit: nat, top: set<int>, fewer: set<int>)
    requires IsTop(keys, limit, top) && top <= fewer <= keys
    ensures IsTop(fewer, limit, top)
  {
    SetSizes(top, fewer);
    SetSizes(fewer, keys);
  }

  lemma UnionKeys(coming: seq<Status>, cur: seq<Status>)
    ensures Union(coming, cur).Keys == StartSet(coming) + StartSet(cur)
  {
    KeyedByStart(map[], cur);
    KeyedByStart(Insert(map[], cur), coming);
  }

  lemma {:induction false} LastInsertWins(tree: map<int, Status>, history: seq<Status>, t: int)
    ensures t in StartSet(history) ==> t in Insert(tree, history) && Insert(tree, history)[t] in history
    ensures t !in StartSet(history) ==>
              (t in Insert(tree, history) <==> t in tree) && (t in tree ==> Insert(tree, history)[t] == tree[t])
  {
    if history != [] {
      var front, last := history[..|history| - 1], history[|history| - 1];
      LastInsertWins(tree, front, t);
      StartSetGrows(front, last);
      assert history == front + [last];
    }
  }

  /** What is recorded comes from the jobs whenever they know the run, and from before otherwise. */
  lemma IncomingWinsTies(coming: seq<Status>, cur: seq<Status>, limit: nat, r: seq<Status>, s: Status)
    requires IsNewest(Union(coming, cur), limit, r) && s in r
    ensures if s.start in StartSet(coming) then s in coming else s in cur
  {
    UnionKeys(coming, cur);
    LastInsertWins(map[], cur, s.start);
    LastInsertWins(Insert(map[], cur), coming, s.start);
  }

  /** What the incoming records say does not depend on what they are inserted into. */
  lemma {:induction false} SameInserts(a: map<int, Status>, b: map<int, Status>, history: seq<Status>, t: int)
    requires t in StartSet(history)
    ensures t in Insert(a, history) && t in Insert(b, history) && Insert(a, history)[t] == Insert(b, history)[t]
  {
    var front, last := history[..|history| - 1], history[|history| - 1];
    StartSetGrows(front, last);
    assert history == front + [last];
    if t != last.start {
      SameInserts(a, b, front, t);
    }
  }

  lemma NewestIsUnique(tree: map<int, Status>, limit: nat, a: seq<Status>, b: seq<Status>)
    requires IsNewest(tree, limit, a) && IsNewest(tree, limit, b)
    ensures Starts(a) == Starts(b)
  {
    TopIsUnique(tree.Keys, limit, StartSet(a), StartSet(b));
    SameStarts(a, b);
  }

  /** Consolidating once more with the same input finds nothing to change. */
  lemma ConsolidatingAgainChangesNothing(coming: seq<Status>, cur: seq<Status>, limit: nat, r: seq<Status>)
    requires IsNewest(Union(coming, cur), limit, r)
    ensures Settled(coming, r, limit)
  {
    UnionKeys(coming, cur);
    UnionKeys(coming, r);
    TopOfLess(Union(coming, cur).Keys, limit, StartSet(r), Union(coming, r).Keys);
    forall s | s in r
      ensures s.start in Union(coming, r) && Union(coming, r)[s.start] == s
    {
      StillThere(coming, cur, limit, r, s);
    }
    assert IsNewest(Union(coming, r), limit, r);
  }

  lemma StillThere(coming: seq<Status>, cur: seq<Status>, limit: nat, r: seq<Status>, s: Status)
    requires IsNewest(Union(coming, cur), limit, r) && s in r
    ensures s.start in Union(coming, r) && Union(coming, r)[s.start] == s
  {
    UnionKeys(coming, r);
    LastInsertWins(map[], r, s.start);
    LastInsertWins(Insert(map[], r), coming, s.start);
    LastInsertWins(Insert(map[], cur), coming, s.start);
    if s.start in StartSet(coming) {
      SameInserts(Insert(map[], r), Insert(map[], cur), coming, s.start);
    }
    var known := Insert(map[], r)[s.start];
    assert known in r && known.start == s.start by {
      KeyedByStart(map[], r);
    }
    assert Union(coming, cur)[known.start] == known;
  }

  lemma SetSizes<T>(a: set<T>, b: set<T>)
    requires a <= b
    ensures |a| <= |b| && (a != b ==> |a| < |b|)
  {
    assert b == a + (b - a);
  }

  // ----- Recording one run -----

  class BackupRepository {
    var recentMaintenance: seq<Status>

    /** The oldest entry makes room once the history is full. */
    method UpdateRepoMaintenanceHistory(latest: Status, limit: nat)
      requires limit >= 1
      modifies this
      ensures |recentMaintenance| <= limit
      ensures recentMaintenance ==
              (if |old(recentMaintenance)| < limit then old(recentMaintenance)
               else old(recentMaintenance)[|old(recentMaintenance)| - limit + 1..]) + [latest]
    {
      var startingPos := 0;
      if |recentMaintenance| >= limit {
        startingPos := |recentMaintenance| - limit + 1;
      }
      recentMaintenance := recentMaintenance[startingPos..] + [latest];
    }
  }

  /** The latest completion, None only if no run has completed. */
  method GetLastMaintenanceTime(history: seq<Status>) returns (time: Option<int>)
    requires history != []
    ensures time.None? <==> forall s | s in history :: s.complete.None?
    ensures time.Some? ==> exists s :: s in history && s.complete == time
    ensures forall s | s in history && s.complete.Some? :: s.complete.value <= time.value
  {
    time := history[0].complete;
    assert history[0] in history;
    for i := 0 to |history|
      invariant time.Some? ==> exists s :: s in history && s.complete == time
      invariant time.None? ==> history[0].complete.None? && forall k | 0 <= k < i :: history[k].complete.None?
      invariant forall k | 0 <= k < i && history[k].complete.Some? :: time.Some? && history[k].complete.value <= time.value
    {
      if history[i].complete.None? {
        continue;
      }
      if time.None? || time.value < history[i].complete.value {
        time := history[i].complete;
        assert history[i] in history;
      }
    }
  }
}
