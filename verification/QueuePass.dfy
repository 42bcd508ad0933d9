/**
 Work conservation: one pass over the queue in position order, with no completion in between, starts exactly the
 first runnable backups that fit in the free slots and leaves all others queued.
 */
module QueuePass {
  import opened BackupTracking
  import opened BackupQueue

  datatype Server = Server(api: Api, tracker: TrackerSets)

  /** One uninterrupted reconcile of a name that was queued when the pass began, all patches succeeding. */
  ghost predicate Dispatched(s: Server, limit: nat, n: Name, s': Server) {
    if !IsQueued(s.api, n) || s.tracker.RunningCount() >= limit || !Admissible(s.api, n) then
      s' == s
    else
      && s'.tracker == s.tracker.AddReadyToStart(n)
      && exists order ::
        && IsRemainingQueue(s.api, n, order)
        && (forall m | m in order :: m in s.api)
        && s'.api == Renumbered(Dequeue(s.api, n), order, |order|)
  }

  ghost predicate IsPass(q: seq<Name>, limit: nat, states: seq<Server>) {
    && |states| == |q| + 1
    && forall i | 0 <= i < |q| :: Dispatched(states[i], limit, q[i], states[i + 1])
  }

  /** The runnable ones among `q`, in order. */
  ghost function RunnableOf(api: Api, q: seq<Name>): (r: seq<Name>)
    ensures forall n :: n in r <==> n in q && Runnable(api, n)
    ensures Distinct(q) ==> Distinct(r)
  {
    if q == [] then [] else
      var r := RunnableOf(api, q[..|q| - 1]);
      assert q == q[..|q| - 1] + [q[|q| - 1]];
      if Runnable(api, q[|q| - 1]) then r + [q[|q| - 1]] else r
  }

  function Take<T>(s: seq<T>, k: nat): (r: seq<T>)
    ensures r <= s && |r| == if |s| <= k then |s| else k
  {
    if |s| <= k then s else s[..k]
  }

  /** The names of `started` run now; everyone else has kept everything but perhaps the position. */
  ghost predicate StartedOnly(before: Api, started: seq<Name>, now: Api) {
    && now.Keys == before.Keys
    && (forall n :: IsQueued(now, n) <==> IsQueued(before, n) && n !in started)
    && (forall n | n in started :: n in before && now[n] == Dequeue(before, n)[n])
    && (forall n | n in before && n !in started :: now[n] == before[n].(queuePosition := Position(now, n)))
  }

  ghost predicate SameOrder(before: Api, started: seq<Name>, now: Api) {
    forall a, b | a !in started && b !in started :: Before(before, a, b) <==> Before(now, a, b)
  }

  ghost predicate SameRunnability(before: Api, now: Api) {
    forall n | IsQueued(now, n) :: Runnable(now, n) <==> Runnable(before, n)
  }

  ghost predicate SlotsAccounted(before: Server, started: seq<Name>, now: Server) {
    && (forall n | IsQueued(now.api, n) :: !now.tracker.Counts(n))
    && now.tracker.RunningCount() == before.tracker.RunningCount() + |started|
  }

  /** What the pass has done after starting the names of `started`. */
  ghost predicate Progress(before: Server, started: seq<Name>, now: Server) {
    && WellPositioned(now.api)
    && StartedOnly(before.api, started, now.api)
    && SameOrder(before.api, started, now.api)
    && SameRunnability(before.api, now.api)
    && SlotsAccounted(before, started, now)
  }

  lemma DispatchMeansDequeue(now: Server, limit: nat, n: Name, next: Server)
    requires WellPositioned(now.api) && Admissible(now.api, n) && now.tracker.RunningCount() < limit
    requires Dispatched(now, limit, n, next)
    ensures WellPositioned(next.api) && DequeuedOne(now.api, n, next.api)
    ensures next.tracker == now.tracker.AddReadyToStart(n)
  {
    var order :| && IsRemainingQueue(now.api, n, order)
                 && (forall m | m in order :: m in now.api)
                 && next.api == Renumbered(Dequeue(now.api, n), order, |order|);
    RenumberingKeepsTheQueue(now.api, n, order, |order|);
  }

  lemma OneMoreStarted(before: Api, started: seq<Name>, now: Api, n: Name, next: Api)
    requires StartedOnly(before, started, now) && DequeuedOne(now, n, next)
    ensures StartedOnly(before, started + [n], next)
  {
    forall m
      ensures IsQueued(next, m) <==> IsQueued(now, m) && m != n
    {
      if m in now && m != n {
        assert next[m].phase == now[m].phase;
      }
    }
  }

  lemma OneMoreRunnability(before: Api, now: Api, n: Name, next: Api)
    requires WellPositioned(now) && WellPositioned(next)
    requires SameRunnability(before, now) && Admissible(now, n) && DequeuedOne(now, n, next)
    ensures SameRunnability(before, next)
  {
    forall m | IsQueued(next, m)
      ensures Runnable(next, m) <==> Runnable(before, m)
    {
      assert m != n && IsQueued(now, m);
      DequeueKeepsRunnability(now, n, next, m);
    }
  }

  lemma OneMoreSlot(before: Server, started: seq<Name>, now: Server, n: Name, next: Server)
    requires SlotsAccounted(before, started, now) && DequeuedOne(now.api, n, next.api)
    requires next.tracker == now.tracker.AddReadyToStart(n)
    ensures SlotsAccounted(before, started + [n], next)
  {
    AddReadyToStartClaimsOneSlot(now.tracker, n);
    forall m | IsQueued(next.api, m)
      ensures !next.tracker.Counts(m)
    {
      assert m != n && IsQueued(now.api, m);
    }
  }

  /** Dequeuing one more keeps the account. */
  lemma ProgressStep(before: Server, started: seq<Name>, now: Server, n: Name, next: Server)
    requires Progress(before, started, now)
    requires Admissible(now.api, n)
    requires WellPositioned(next.api) && DequeuedOne(now.api, n, next.api)
    requires next.tracker == now.tracker.AddReadyToStart(n)
    ensures Progress(before, started + [n], next)
  {
    OneMoreStarted(before.api, started, now.api, n, next.api);
    OneMoreRunnability(before.api, now.api, n, next.api);
    OneMoreSlot(before, started, now, n, next);
    assert SameOrder(before.api, started + [n], next.api);
  }

  /** After the first `i` names, the backups started are the first runnable ones that fit. */
  lemma {:induction false} PassPrefix(before: Server, q: seq<Name>, limit: nat, states: seq<Server>, i: nat)
    requires WellPositioned(before.api) && IsQueue(before.api, q)
    requires forall n | IsQueued(before.api, n) :: !before.tracker.Counts(n)
    requires before.tracker.RunningCount() <= limit
    requires IsPass(q, limit, states) && states[0] == before && i <= |q|
    ensures Progress(before, Take(RunnableOf(before.api, q[..i]), limit - before.tracker.RunningCount()), states[i])
  {
    if i == 0 {
      assert q[..0] == [];
    } else {
      PassPrefix(before, q, limit, states, i - 1);
      assert q[..i][..i - 1] == q[..i - 1] && q[..i][i - 1] == q[i - 1];
      assert Dispatched(states[i - 1], limit, q[i - 1], states[i - 1 + 1]);
      PassStep(before, q, limit, states[i - 1], i, states[i]);
    }
  }

  lemma PassStep(before: Server, q: seq<Name>, limit: nat, now: Server, i: nat, next: Server)
    requires WellPositioned(before.api) && IsQueue(before.api, q) && 0 < i <= |q|
    requires before.tracker.RunningCount() <= limit
    requires Progress(before, Take(RunnableOf(before.api, q[..i - 1]), limit - before.tracker.RunningCount()), now)
    requires Dispatched(now, limit, q[i - 1], next)
    ensures var r := RunnableOf(before.api, q[..i - 1]);
            var r' := if Runnable(before.api, q[i - 1]) then r + [q[i - 1]] else r;
            Progress(before, Take(r', limit - before.tracker.RunningCount()), next)
  {
    var free := limit - before.tracker.RunningCount();
    var n := q[i - 1];
    var r := RunnableOf(before.api, q[..i - 1]);
    assert n in q && n !in q[..i - 1];
    assert IsQueued(now.api, n);
    if Runnable(before.api, n) {
      if |r| < free {
        NobodyAheadCouldRun(before, q, i, r, now);
        DispatchMeansDequeue(now, limit, n, next);
        ProgressStep(before, r, now, n, next);
        assert Take(r + [n], free) == r + [n];
      } else {
        assert Take(r + [n], free) == Take(r, free);
      }
    } else {
      assert !Runnable(now.api, n);
    }
  }

  /** Everything runnable ahead of q[i - 1] has been started already. */
  lemma NobodyAheadCouldRun(before: Server, q: seq<Name>, i: nat, started: seq<Name>, now: Server)
    requires WellPositioned(before.api) && IsQueue(before.api, q) && 0 < i <= |q|
    requires started == RunnableOf(before.api, q[..i - 1]) && Progress(before, started, now)
    requires Runnable(before.api, q[i - 1])
    ensures Admissible(now.api, q[i - 1])
  {
    var n := q[i - 1];
    assert n in q && n !in q[..i - 1];
    forall e | Before(now.api, e, n)
      ensures !Runnable(now.api, e)
    {
      assert Before(before.api, e, n) && e in q;
      var j := IndexOf(q, e);
      assert j < i - 1;
      assert e == q[..i - 1][j];
      assert e !in started;
    }
  }

  /** The pass starts exactly the first min(free, runnable) runnable backups, and the rest stay queued. */
  lemma PassStartsTheFirstRunnable(before: Server, q: seq<Name>, limit: nat, states: seq<Server>)
    requires WellPositioned(before.api) && IsQueue(before.api, q)
    requires forall n | IsQueued(before.api, n) :: !before.tracker.Counts(n)
    requires before.tracker.RunningCount() <= limit
    requires IsPass(q, limit, states) && states[0] == before
    ensures var r := RunnableOf(before.api, q);
            var free := limit - before.tracker.RunningCount();
            var after := states[|q|];
            && (forall k | 0 <= k < |r| ::
                  if k < free then IsRunning(after.api, r[k]) else IsQueued(after.api, r[k]))
            && (forall n | n in q && n !in r :: IsQueued(after.api, n))
            && after.tracker.RunningCount() ==
               before.tracker.RunningCount() + if |r| <= free then |r| else free
  {
    PassPrefix(before, q, limit, states, |q|);
    assert q[..|q|] == q;
    var r := RunnableOf(before.api, q);
    var free := limit - before.tracker.RunningCount();
    forall k | 0 <= k < |r|
      ensures if k < free then IsRunning(states[|q|].api, r[k]) else IsQueued(states[|q|].api, r[k])
    {
      assert r[k] in r && r[k] in q;
      var started := Take(r, free);
      if k < free {
        assert r[k] == started[k];
      } else {
        assert r[k] !in started;
      }
    }
  }
}
