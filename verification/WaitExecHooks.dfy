/** Grouping a restored pod's exec hooks by container, and running them while its containers come up. */
module WaitExecHooks {
  import opened HookTracking
  import opened HookRuns
  import opened Options

  datatype PodHook = PodHook(hook: Hook, executed: bool)

  type PodHooks = map<string, seq<PodHook>>

  /** The hooks of a container, the first `n` of them flagged. */
  function Marked(hooks: seq<Hook>, n: nat): seq<PodHook> {
    seq(|hooks|, i requires 0 <= i < |hooks| => PodHook(hooks[i], i < n))
  }

  /** Ready if one of the hooks waits for that, and otherwise running, by the first status of the container. */
  method IsContainerUp(statuses: seq<ContainerStatus>, name: string, hooks: seq<PodHook>) returns (up: bool)
    ensures up == Up(statuses, name, exists i :: 0 <= i < |hooks| && hooks[i].hook.waitForReady)
  {
    var waitForReady := false;
    for i := 0 to |hooks|
      invariant !waitForReady && forall k | 0 <= k < i :: !hooks[k].hook.waitForReady
    {
      if hooks[i].hook.waitForReady {
        waitForReady := true;
        break;
      }
    }
    for i := 0 to |statuses|
      invariant Up(statuses, name, waitForReady) == Up(statuses[i..], name, waitForReady)
    {
      assert statuses[i..][1..] == statuses[i + 1..];
      if statuses[i].name != name {
        continue;
      }
      if waitForReady {
        return statuses[i].ready;
      }
      return statuses[i].running;
    }
    up := false;
  }

  lemma WaitsAsMarked(hooks: seq<Hook>, n: nat)
    ensures WaitsForReady(hooks) <==>
              exists i :: 0 <= i < |Marked(hooks, n)| && Marked(hooks, n)[i].hook.waitForReady
  {
    assert forall i | 0 <= i < |hooks| :: Marked(hooks, n)[i].hook == hooks[i];
  }

  ghost function Existing(pod: Pod, given: Hooks): Hooks {
    map c | c in given && c in pod.containers :: given[c]
  }

  ghost predicate FlaggedAt(all: Hooks, now: PodHooks, attempts: seq<Attempt>, c: string) {
    c in now ==> c in all && now[c] == Marked(all[c], |Only(attempts, c)|)
  }

  /** Flagged are the hooks that have been attempted. */
  ghost predicate Flagged(all: Hooks, now: PodHooks, attempts: seq<Attempt>) {
    now.Keys <= all.Keys && forall c {:trigger FlaggedAt(all, now, attempts, c)} :: FlaggedAt(all, now, attempts, c)
  }

  class WaitExecHookHandler {
    const pod: Pod
    const tracker: HookTracker
    const oracle: Oracle
    var byContainer: PodHooks
    var cancelled: bool
    var errors: seq<HookKey>               // the hook of each error returned
    var executions: seq<(string, nat)>     // every command run: container and position in its list
    ghost var all: Hooks                   // the hooks of the pod's containers
    ghost var before: Statuses
    ghost var attempts: seq<Attempt>

    constructor (pod: Pod, tracker: HookTracker, oracle: Oracle)
      ensures this.pod == pod && this.tracker == tracker && this.oracle == oracle
    {
      this.pod, this.tracker, this.oracle := pod, tracker, oracle;
      byContainer, cancelled, errors, executions := map[], false, [], [];
      all, before, attempts := map[], map[], [];
    }

    ghost function View(): RunState
      reads this
    {
      RunState(byContainer.Keys, attempts, cancelled)
    }

    /** The results are those of the attempts. */
    ghost predicate Booked()
      reads this, tracker
    {
      && tracker.Valid()
      && executions == Executions(oracle, attempts)
      && errors == Errors(pod, oracle, attempts)
      && tracker.tracker == StatusesAfter(pod, oracle, before, attempts)
    }

    ghost predicate Valid()
      reads this, tracker
    {
      Booked() && Flagged(all, byContainer, attempts) && Orderly(oracle, all, View())
    }

    /**
     The handler's run is one of the state machine over the pod's events; the commands run, the errors and the tracker
     are those of its attempts, and the hooks never attempted are recorded as failures.
     */
    method HandleHooks(given: Hooks, events: seq<Event>) returns (ghost run: seq<RunState>, ghost unrun: seq<Attempt>)
      requires tracker.Valid()
      modifies this, tracker
      ensures tracker.Valid()
      ensures IsHookRun(oracle, Existing(pod, given), events, run)
      ensures ListsUnrun(Existing(pod, given), Last(run).attempts, unrun)
      ensures executions == Executions(oracle, Last(run).attempts)
      ensures errors == AllErrors(pod, oracle, Last(run).attempts, unrun)
      ensures tracker.tracker == Final(pod, oracle, old(tracker.tracker), Last(run).attempts, unrun)
      // A command is run at most once; that of an attempted hook always, but for one expired in error mode Fail.
      ensures NoRepeats(executions)
      ensures forall c, i: nat | c in given && c in pod.containers && i < |given[c]| ::
                (c, i) in executions <==>
                At(given[c], c, i) in Last(run).attempts && !(oracle.expired(c, i) && given[c][i].failOnError)
      ensures Executed(tracker.tracker) ==
              Executed(old(tracker.tracker)) + KeysOf(pod, Existing(pod, given)) * old(tracker.tracker).Keys
    {
      StartWith(given);
      run := [View()];
      for e := 0 to |events|
        invariant Valid() && all == Existing(pod, given) && before == old(tracker.tracker)
        invariant RunSoFar(events, run, e)
      {
        if cancelled {
          break;
        }
        ghost var s := View();
        HandleEvent(events[e]);
        OneMoreEvent(events, run, e, s);
        run := run + [View()];
      }
      unrun := FailRemaining();
      CommandsRunExactly(oracle, all, events, run);
      RunIsOrderly(oracle, all, events, run, |run| - 1);
      AttemptsAreDistinct(oracle, all, Last(run));
      EverythingRecorded(pod, oracle, all, before, attempts, unrun);
    }

    ghost predicate RunSoFar(events: seq<Event>, run: seq<RunState>, e: nat)
      reads this
    {
      && 1 <= |run| <= e + 1 <= |events| + 1 && Last(run) == View()
      && run[0] == RunState(all.Keys, [], false)
      && (forall d | 0 <= d < |run| - 1 :: !run[d].cancelled && EventStep(oracle, all, events[d], run[d], run[d + 1]))
      && (cancelled || |run| == e + 1)
    }

    lemma OneMoreEvent(events: seq<Event>, run: seq<RunState>, e: nat, s: RunState)
      requires e < |events| && |run| == e + 1 && Last(run) == s && !s.cancelled
      requires run[0] == RunState(all.Keys, [], false)
      requires forall d | 0 <= d < |run| - 1 :: !run[d].cancelled && EventStep(oracle, all, events[d], run[d], run[d + 1])
      requires EventStep(oracle, all, events[e], s, View())
      ensures RunSoFar(events, run + [View()], e + 1)
    {
    }

    /** Discards the hooks of containers the pod does not have. */
    method StartWith(given: Hooks)
      requires tracker.Valid()
      modifies this
      ensures Valid() && all == Existing(pod, given) && before == tracker.tracker
      ensures View() == RunState(all.Keys, [], false)
    {
      byContainer := KeepExisting(pod.containers, given);
      cancelled, errors, executions := false, [], [];
      all, before, attempts := Existing(pod, given), tracker.tracker, [];
      assert byContainer.Keys == all.Keys;
      assert forall c :: FlaggedAt(all, byContainer, [], c);
      assert forall c | c in all :: InOrder(oracle, all, View(), c);
    }

    method HandleEvent(event: Event)
      requires Valid() && !cancelled
      modifies this`byContainer, this`cancelled, this`errors, this`executions, this`attempts, tracker
      ensures Valid() && EventStep(oracle, all, event, old(View()), View())
    {
      if event.NotAPod? {
        return;
      }
      if event.PodDeleted? || event.ended {
        Cancel();
        return;
      }
      HandlePod(event);
    }

    method HandlePod(event: Event)
      requires Valid() && !cancelled && event.PodSeen? && !event.ended
      modifies this`byContainer, this`cancelled, this`errors, this`executions, this`attempts, tracker
      ensures Valid() && EventStep(oracle, all, event, old(View()), View())
    {
      ghost var s := View();
      ghost var batch := RunUp(event);
      if cancelled {
        return;
      }
      BatchDone(oracle, all, event, s, {}, batch, View());
      if |byContainer| == 0 {
        Cancel();
      }
    }

    /** Runs the hooks of the containers that are up, in the order in which the map is ranged over. */
    method RunUp(event: Event) returns (ghost batch: seq<string>)
      requires Valid() && !cancelled && event.PodSeen? && !event.ended
      modifies this`byContainer, this`cancelled, this`errors, this`executions, this`attempts, tracker
      ensures Valid() && (cancelled ==> EventStep(oracle, all, event, old(View()), View()))
      ensures !cancelled ==> event.convertible || batch == []
      ensures !cancelled ==>
                BatchSoFar(oracle, all, old(View()), UpOf(all, event.statuses, old(View()).waiting), {}, batch, View())
    {
      ghost var s := View();
      ghost var up := UpOf(all, event.statuses, s.waiting);
      batch := [];
      var left := byContainer.Keys;
      while left != {}
        invariant Valid() && !cancelled && left <= byContainer.Keys
        invariant BatchSoFar(oracle, all, s, up, left, batch, View())
        invariant event.convertible || batch == []
        decreases left
      {
        var c :| c in left;
        left := left - {c};
        var isUp := SeesUp(event.statuses, c);
        if !isUp {
          PassedOver(oracle, all, s, up, left, batch, View(), c);
          continue;
        }
        if !event.convertible {
          Unconvertible(oracle, all, event, s, left + {c}, batch, View(), c);
          Cancel();
          return;
        }
        OneMoreOfBatch(oracle, all, s, up, left, batch, View(), c);
        RunContainer(c);
        batch := batch + [c];
        if cancelled {
          BatchDone(oracle, all, event, s, left, batch, View());
          return;
        }
      }
    }

    method Cancel()
      requires Valid() && !cancelled
      modifies this`cancelled
      ensures Valid() && View() == old(View()).(cancelled := true)
    {
      CancelIsOrderly(oracle, all, View());
      cancelled := true;
    }

    method SeesUp(statuses: seq<ContainerStatus>, c: string) returns (isUp: bool)
      requires Valid() && c in byContainer
      ensures c in all && isUp == Up(statuses, c, WaitsForReady(all[c]))
    {
      assert FlaggedAt(all, byContainer, attempts, c);
      WaitsAsMarked(all[c], |Only(attempts, c)|);
      isUp := IsContainerUp(statuses, c, byContainer[c]);
    }

    /** Runs the hooks of one container; it leaves the map once all have run. */
    method RunContainer(c: string)
      requires Valid() && !cancelled && c in byContainer
      modifies this`byContainer, this`cancelled, this`errors, this`executions, this`attempts, tracker
      ensures Valid() && View() == RunOne(oracle, all, old(View()), c)
    {
      ghost var s, now := View(), byContainer;
      assert InOrder(oracle, all, s, c) && FlaggedAt(all, now, s.attempts, c);
      RunInOrder(c);
      if !cancelled {
        byContainer := byContainer - {c};
      }
      Settled(now, s, c);
    }

    /** The hooks of the container in list order, up to the first that ends everything. */
    method RunInOrder(c: string)
      requires Booked() && !cancelled && c in byContainer && c in all && byContainer[c] == Marked(all[c], 0)
      modifies this`byContainer, this`cancelled, this`errors, this`executions, this`attempts, tracker
      ensures Booked() && attempts == old(attempts) + FirstAttempts(all[c], c, Cut(oracle, all[c], c))
      ensures byContainer == old(byContainer)[c := Marked(all[c], Cut(oracle, all[c], c))]
      ensures cancelled <==> HasEnd(oracle, all[c], c)
    {
      var hooks := byContainer[c];
      ghost var list, start, now := all[c], attempts, byContainer;
      for i := 0 to |hooks|
        invariant Booked() && !cancelled && c in byContainer
        invariant RanSoFar(oracle, list, c, i, now, byContainer, start, attempts)
      {
        RanOneMore(oracle, list, c, i, now, byContainer, start, attempts);
        RunHook(c, i);
        if cancelled {
          return;
        }
      }
      NoCut(oracle, list, c);
    }

    lemma Settled(now: PodHooks, s: RunState, c: string)
      requires Booked() && Orderly(oracle, all, s) && !s.cancelled && c in all
      requires View() == RunOne(oracle, all, s, c)
      requires now.Keys == s.waiting && c in now && Only(s.attempts, c) == []
      requires Flagged(all, now, s.attempts)
      requires byContainer == if cancelled then now[c := Marked(all[c], Cut(oracle, all[c], c))] else now - {c}
      ensures Valid()
    {
      RunOneIsOrderly(oracle, all, s, c);
      forall d
        ensures FlaggedAt(all, byContainer, attempts, d)
      {
        assert FlaggedAt(all, now, s.attempts, d);
        RunOneAttempts(oracle, all, s, c, d);
      }
    }

    /** Flags the hook and attempts it. */
    method RunHook(c: string, i: nat)
      requires Booked() && !cancelled && c in byContainer && c in all && i < |all[c]|
      requires byContainer[c] == Marked(all[c], i)
      modifies this`byContainer, this`cancelled, this`errors, this`executions, this`attempts, tracker
      ensures Booked() && attempts == old(attempts) + [At(all[c], c, i)]
      ensures byContainer == old(byContainer)[c := Marked(all[c], i + 1)]
      ensures cancelled <==> EndsAll(oracle, At(all[c], c, i))
    {
      var hook := byContainer[c][i].hook;
      byContainer := byContainer[c := byContainer[c][i := byContainer[c][i].(executed := true)]];
      assert byContainer[c] == Marked(all[c], i + 1);
      cancelled := Attempt(c, i, hook);
    }

    /** An expired hook is recorded as failed, yet still run unless its error mode is Fail. */
    method Attempt(c: string, i: nat, hook: Hook) returns (stop: bool)
      requires Booked()
      modifies this`errors, this`executions, this`attempts, tracker
      ensures var a := HookRuns.Attempt(c, i, hook);
              && attempts == old(attempts) + [a] && Booked()
              && stop == (hook.failOnError && (oracle.expired(c, i) || oracle.fails(c, i)))
              && executions == old(executions) + (if oracle.expired(c, i) && hook.failOnError then [] else [(c, i)])
              && tracker.tracker == Recorded(old(tracker.tracker), KeyOf(pod, hook), oracle.expired(c, i) || oracle.fails(c, i))
              && errors == old(errors)
                           + (if oracle.expired(c, i) then [KeyOf(pod, hook)] else [])
                           + if !(oracle.expired(c, i) && hook.failOnError) && oracle.fails(c, i) then [KeyOf(pod, hook)] else []
    {
      var key := KeyOf(pod, hook);
      BookOneMore(pod, oracle, before, attempts, HookRuns.Attempt(c, i, hook));
      attempts := attempts + [HookRuns.Attempt(c, i, hook)];
      if oracle.expired(c, i) {
        errors := errors + [key];
        var _ := tracker.Record(key, true);
        if hook.failOnError {
          return true;
        }
      }
      executions := executions + [(c, i)];
      var hookFailed := oracle.fails(c, i);
      if hookFailed {
        errors := errors + [key];
      }
      var _ := tracker.Record(key, hookFailed);
      return hookFailed && hook.failOnError;
    }

    /** What was never attempted is recorded as failed. */
    method FailRemaining() returns (ghost unrun: seq<Attempt>)
      requires Valid()
      modifies this`errors, tracker
      ensures tracker.Valid() && ListsUnrun(all, attempts, unrun)
      ensures errors == AllErrors(pod, oracle, attempts, unrun)
      ensures tracker.tracker == Final(pod, oracle, before, attempts, unrun)
    {
      unrun := [];
      var left := byContainer.Keys;
      while left != {}
        invariant left <= byContainer.Keys
        invariant FailedSoFar(unrun) && ListsUnrunOf(all, attempts, byContainer.Keys - left, unrun)
      {
        var c :| c in left;
        left := left - {c};
        ghost var done := unrun;
        unrun := FailUnexecuted(c, unrun);
        OneMoreContainer(oracle, all, View(), byContainer.Keys - left - {c}, c, done);
        assert byContainer.Keys - left == byContainer.Keys - left - {c} + {c};
      }
      NothingLeftUnrun(oracle, all, View(), unrun);
    }

    /** The hooks of `unrun` have been recorded on top of the attempts. */
    ghost predicate FailedSoFar(unrun: seq<Attempt>)
      reads this, tracker
    {
      && tracker.Valid()
      && errors == AllErrors(pod, oracle, attempts, unrun)
      && tracker.tracker == Final(pod, oracle, before, attempts, unrun)
    }

    method FailUnexecuted(c: string, ghost done: seq<Attempt>) returns (ghost unrun: seq<Attempt>)
      requires c in byContainer && Flagged(all, byContainer, attempts) && FailedSoFar(done)
      modifies this`errors, tracker
      ensures FailedSoFar(unrun) && unrun == done + Rest(all[c], c, |Only(attempts, c)|, |all[c]|)
    {
      ghost var n := |Only(attempts, c)|;
      assert FlaggedAt(all, byContainer, attempts, c);
      unrun := done;
      for i := 0 to |byContainer[c]|
        invariant FailedSoFar(unrun) && unrun == done + Rest(all[c], c, n, i)
      {
        if byContainer[c][i].executed {
          continue;
        }
        var key := KeyOf(pod, byContainer[c][i].hook);
        unrun := unrun + [At(all[c], c, i)];
        errors := errors + [key];
        var _ := tracker.Record(key, true);
      }
    }
  }

  lemma BookOneMore(pod: Pod, o: Oracle, before: Statuses, attempts: seq<Attempt>, a: Attempt)
    ensures Executions(o, attempts + [a]) ==
            Executions(o, attempts) + if IsRun(o, a) then [(a.container, a.position)] else []
    ensures Errors(pod, o, attempts + [a]) == Errors(pod, o, attempts) + ErrorsOf(pod, o, a)
    ensures StatusesAfter(pod, o, before, attempts + [a]) ==
            Recorded(StatusesAfter(pod, o, before, attempts), KeyOf(pod, a.hook), Fails(o, a))
  {
    assert (attempts + [a])[..|attempts|] == attempts;
  }

  // ----- Batches -----

  /** `batch` holds the containers of `up` that have been looked at, and running their hooks has led to `t`. */
  ghost predicate BatchSoFar(o: Oracle, all: Hooks, s: RunState, up: set<string>, left: set<string>, batch: seq<string>,
                             t: RunState) {
    && NoRepeats(batch) && (forall c | c in batch :: c in up && c in all && c !in left)
    && (forall c | c in up && c !in left :: c in batch)
    && t == RunBatch(o, all, s, batch)
    && (!t.cancelled ==> forall c | c in left :: c in s.waiting)
  }

  lemma OneMoreOfBatch(o: Oracle, all: Hooks, s: RunState, up: set<string>, left: set<string>, batch: seq<string>,
      t: RunState, c: string)
    requires BatchSoFar(o, all, s, up, left + {c}, batch, t) && c in up && c in all && c !in left && !t.cancelled
    ensures BatchSoFar(o, all, s, up, left, batch + [c], RunOne(o, all, t, c))
  {
    assert (batch + [c])[..|batch|] == batch;
  }

  lemma PassedOver(o: Oracle, all: Hooks, s: RunState, up: set<string>, left: set<string>, batch: seq<string>,
      t: RunState, c: string)
    requires BatchSoFar(o, all, s, up, left + {c}, batch, t) && c !in up
    ensures BatchSoFar(o, all, s, up, left, batch, t)
  {
  }

  lemma Unconvertible(o: Oracle, all: Hooks, event: Event, s: RunState, left: set<string>, batch: seq<string>,
      t: RunState, c: string)
    requires event.PodSeen? && !event.ended && !event.convertible && batch == []
    requires var up := UpOf(all, event.statuses, s.waiting); BatchSoFar(o, all, s, up, left, batch, t) && c in up
    ensures EventStep(o, all, event, s, t.(cancelled := true))
  {
  }

  lemma BatchDone(o: Oracle, all: Hooks, event: Event, s: RunState, left: set<string>, batch: seq<string>, t: RunState)
    requires event.PodSeen? && !event.ended && (event.convertible || batch == []) && !s.cancelled
    requires BatchSoFar(o, all, s, UpOf(all, event.statuses, s.waiting), left, batch, t) && (left == {} || t.cancelled)
    ensures EventStep(o, all, event, s, if t.cancelled then t else Finished(t))
  {
    var up := UpOf(all, event.statuses, s.waiting);
    assert event.convertible || up == {} by {
      assert RunBatch(o, all, s, []) == s;
    }
    assert IsBatch(o, all, s, up, batch);
    assert BatchStep(o, all, s, batch, if t.cancelled then t else Finished(t));
  }

  // ----- One container -----

  ghost predicate NoneEnds(o: Oracle, hooks: seq<Hook>, c: string, i: nat)
    requires i <= |hooks|
  {
    forall j | 0 <= j < i :: !EndsAll(o, At(hooks, c, j))
  }

  /** The first `i` hooks of the container have been attempted, and none has ended everything. */
  ghost predicate RanSoFar(o: Oracle, hooks: seq<Hook>, c: string, i: nat, before: PodHooks, now: PodHooks,
                           start: seq<Attempt>, attempts: seq<Attempt>) {
    && i <= |hooks| && NoneEnds(o, hooks, c, i)
    && now == before[c := Marked(hooks, i)] && attempts == start + FirstAttempts(hooks, c, i)
  }

  lemma RanOneMore(o: Oracle, hooks: seq<Hook>, c: string, i: nat, before: PodHooks, now: PodHooks,
      start: seq<Attempt>, attempts: seq<Attempt>)
    requires i < |hooks| && RanSoFar(o, hooks, c, i, before, now, start, attempts)
    ensures if EndsAll(o, At(hooks, c, i))
            then && HasEnd(o, hooks, c) && Cut(o, hooks, c) == i + 1
                 && now[c := Marked(hooks, i + 1)] == before[c := Marked(hooks, Cut(o, hooks, c))]
                 && attempts + [At(hooks, c, i)] == start + FirstAttempts(hooks, c, Cut(o, hooks, c))
            else RanSoFar(o, hooks, c, i + 1, before, now[c := Marked(hooks, i + 1)], start, attempts + [At(hooks, c, i)])
  {
    assert FirstAttempts(hooks, c, i + 1) == FirstAttempts(hooks, c, i) + [At(hooks, c, i)];
    if EndsAll(o, At(hooks, c, i)) {
      EndIsAtTheCut(o, hooks, c);
    }
  }

  lemma NoCut(o: Oracle, hooks: seq<Hook>, c: string)
    requires NoneEnds(o, hooks, c, |hooks|)
    ensures !HasEnd(o, hooks, c) && Cut(o, hooks, c) == |hooks|
  {
  }

  // ----- The hooks never attempted -----

  function Rest(hooks: seq<Hook>, c: string, n: nat, i: nat): seq<Attempt>
    requires i <= |hooks|
  {
    if i <= n then [] else Rest(hooks, c, n, i - 1) + [At(hooks, c, i - 1)]
  }

  ghost predicate ListsUnrunOf(all: Hooks, attempts: seq<Attempt>, of: set<string>, unrun: seq<Attempt>) {
    NoRepeats(unrun) && forall a :: a in unrun <==> IsAttempt(all, a) && a !in attempts && a.container in of
  }

  lemma {:induction false} RestMembers(hooks: seq<Hook>, c: string, n: nat, i: nat)
    requires i <= |hooks|
    ensures NoRepeats(Rest(hooks, c, n, i))
    ensures forall a :: a in Rest(hooks, c, n, i) <==>
                        a.container == c && n <= a.position < i && a.hook == hooks[a.position]
  {
    if i > n {
      RestMembers(hooks, c, n, i - 1);
    }
  }

  /** The attempts in a container are at its first hooks. */
  lemma AttemptedByPosition(o: Oracle, all: Hooks, s: RunState, a: Attempt)
    requires Orderly(o, all, s) && IsAttempt(all, a)
    ensures a in s.attempts <==> a.position < |Only(s.attempts, a.container)|
  {
    var c := a.container;
    assert InOrder(o, all, s, c);
    OnlyMembers(s.attempts, c, a);
    assert a.position < |Only(s.attempts, c)| ==> Only(s.attempts, c)[a.position] == a;
  }

  lemma JoinWithoutRepeats<T>(a: seq<T>, b: seq<T>)
    requires NoRepeats(a) && NoRepeats(b) && forall x | x in a :: x !in b
    ensures NoRepeats(a + b)
  {
    forall i, j | 0 <= i < |a| && 0 <= j < |b|
      ensures a[i] != b[j]
    {
      assert a[i] in a && b[j] in b;
    }
  }

  lemma OneMoreContainer(o: Oracle, all: Hooks, s: RunState, of: set<string>, c: string, done: seq<Attempt>)
    requires Orderly(o, all, s) && c in all && c !in of && ListsUnrunOf(all, s.attempts, of, done)
    ensures ListsUnrunOf(all, s.attempts, of + {c}, done + Rest(all[c], c, |Only(s.attempts, c)|, |all[c]|))
  {
    var rest := Rest(all[c], c, |Only(s.attempts, c)|, |all[c]|);
    RestMembers(all[c], c, |Only(s.attempts, c)|, |all[c]|);
    JoinWithoutRepeats(done, rest);
    forall a
      ensures a in rest <==> IsAttempt(all, a) && a !in s.attempts && a.container == c
    {
      if IsAttempt(all, a) {
        AttemptedByPosition(o, all, s, a);
      }
    }
  }

  lemma NothingLeftUnrun(o: Oracle, all: Hooks, s: RunState, unrun: seq<Attempt>)
    requires Orderly(o, all, s) && ListsUnrunOf(all, s.attempts, s.waiting, unrun)
    ensures ListsUnrun(all, s.attempts, unrun)
  {
    forall a | IsAttempt(all, a) && a.container !in s.waiting
      ensures a in s.attempts
    {
      assert InOrder(o, all, s, a.container);
      AttemptedByPosition(o, all, s, a);
    }
  }

  method KeepExisting(containers: seq<string>, given: Hooks) returns (byContainer: PodHooks)
    ensures forall c :: c in byContainer <==> c in given && c in containers
    ensures forall c | c in byContainer :: byContainer[c] == Marked(given[c], 0)
  {
    byContainer := map c | c in given :: Marked(given[c], 0);
    var left := byContainer.Keys;
    while left != {}
      invariant left <= byContainer.Keys <= given.Keys
      invariant forall c | c in byContainer :: byContainer[c] == Marked(given[c], 0)
      invariant forall c | c in given && c !in byContainer :: c !in containers
      invariant forall c | c in byContainer && c !in left :: c in containers
    {
      var c :| c in left;
      left := left - {c};
      if !PodHasContainer(containers, c) {
        byContainer := byContainer - {c};
      }
    }
  }

  predicate PodHasContainer(containers: seq<string>, name: string) {
    name in containers
  }

  // ----- Grouping -----

  /** A restore hook as specified: possibly not an exec hook, possibly without a container. */
  datatype HookSpec = HookSpec(isExec: bool, container: string, failOnError: bool, waitForReady: bool)

  datatype ResourceHook = ResourceHook(name: string, applicable: bool, hooks: seq<HookSpec>)

  function ToHook(pod: Pod, spec: HookSpec, name: string, source: string, index: nat): Hook
    requires pod.containers != []
  {
    Hook(name, source, if spec.container == "" then pod.containers[0] else spec.container, index, spec.failOnError,
         spec.waitForReady)
  }

  function Append(byContainer: Hooks, h: Hook): Hooks {
    byContainer[h.container := (if h.container in byContainer then byContainer[h.container] else []) + [h]]
  }

  lemma AppendAddsKey(pod: Pod, byContainer: Hooks, h: Hook)
    ensures KeysOf(pod, Append(byContainer, h)) == KeysOf(pod, byContainer) + {KeyOf(pod, h)}
    ensures Filed(byContainer) ==> Filed(Append(byContainer, h))
  {
    var after := Append(byContainer, h);
    var n := |after[h.container]| - 1;
    assert after[h.container][n] == h;
    forall c, i | c in byContainer && 0 <= i < |byContainer[c]|
      ensures c in after && i < |after[c]| && after[c][i] == byContainer[c][i]
    {
    }
    forall c, i | c in after && 0 <= i < |after[c]|
      ensures KeyOf(pod, after[c][i]) in KeysOf(pod, byContainer) + {KeyOf(pod, h)}
    {
      if c != h.container || i < n {
        assert after[c][i] == byContainer[c][i];
      }
    }
  }

  ghost predicate Filed(byContainer: Hooks) {
    forall c, i | c in byContainer && 0 <= i < |byContainer[c]| :: byContainer[c][i].container == c
  }

  /** The hooks that the first `n` entries of a restore hook ask for. */
  function FromSpecs(pod: Pod, r: ResourceHook, n: nat): seq<Hook>
    requires pod.containers != [] && n <= |r.hooks|
  {
    if n == 0 then []
    else FromSpecs(pod, r, n - 1)
         + if r.hooks[n - 1].isExec then [ToHook(pod, r.hooks[n - 1], r.name, "spec", n - 1)] else []
  }

  function FromResources(pod: Pod, resourceHooks: seq<ResourceHook>, n: nat): seq<Hook>
    requires pod.containers != [] && n <= |resourceHooks|
  {
    if n == 0 then []
    else
      var r := resourceHooks[n - 1];
      FromResources(pod, resourceHooks, n - 1) + if r.applicable then FromSpecs(pod, r, |r.hooks|) else []
  }

  /** The hooks meant for the pod: an annotation on it replaces those of the restore. */
  function Meant(pod: Pod, annotation: Option<HookSpec>, resourceHooks: seq<ResourceHook>): seq<Hook> {
    if pod.containers == [] then []
    else if annotation.Some? then [ToHook(pod, annotation.value, "<from-annotation>", "annotation", 0)]
    else FromResources(pod, resourceHooks, |resourceHooks|)
  }

  /** The hook is as the specification says; without a container it goes to the pod's first. */
  predicate AsSpecified(pod: Pod, spec: HookSpec, h: Hook) {
    && h.failOnError == spec.failOnError && h.waitForReady == spec.waitForReady
    && (spec.container != "" ==> h.container == spec.container)
    && (spec.container == "" ==> pod.containers != [] && h.container == pod.containers[0])
  }

  /** The hook comes from one entry of an applicable restore hook, and bears its name and its place in the list. */
  predicate ComesFrom(pod: Pod, r: ResourceHook, h: Hook) {
    && r.applicable && h.name == r.name && h.source == "spec" && h.index < |r.hooks|
    && r.hooks[h.index].isExec && AsSpecified(pod, r.hooks[h.index], h)
  }

  lemma {:induction false} WhatSpecsAskFor(pod: Pod, r: ResourceHook, n: nat, h: Hook)
    requires pod.containers != [] && n <= |r.hooks| && r.applicable
    ensures h in FromSpecs(pod, r, n) <==> h.index < n && ComesFrom(pod, r, h)
  {
    if n > 0 {
      WhatSpecsAskFor(pod, r, n - 1, h);
    }
  }

  lemma {:induction false} WhatResourcesAskFor(pod: Pod, resourceHooks: seq<ResourceHook>, n: nat, h: Hook)
    requires pod.containers != [] && n <= |resourceHooks|
    ensures h in FromResources(pod, resourceHooks, n) <==> exists r :: 0 <= r < n && ComesFrom(pod, resourceHooks[r], h)
  {
    if n > 0 {
      WhatResourcesAskFor(pod, resourceHooks, n - 1, h);
      var last := resourceHooks[n - 1];
      if last.applicable {
        WhatSpecsAskFor(pod, last, |last.hooks|, h);
      }
    }
  }

  /** Hooks are meant for a pod with containers only: that of its annotation if it has one, else those of the restore. */
  lemma WhatIsMeant(pod: Pod, annotation: Option<HookSpec>, resourceHooks: seq<ResourceHook>, h: Hook)
    ensures h in Meant(pod, annotation, resourceHooks) <==>
              && pod.containers != []
              && match annotation
                 case Some(spec) =>
                   h.name == "<from-annotation>" && h.source == "annotation" && h.index == 0 && AsSpecified(pod, spec, h)
                 case None => exists r :: 0 <= r < |resourceHooks| && ComesFrom(pod, resourceHooks[r], h)
    ensures annotation.Some? ==> |Meant(pod, annotation, resourceHooks)| <= 1
  {
    if pod.containers != [] {
      WhatResourcesAskFor(pod, resourceHooks, |resourceHooks|, h);
    }
  }

  function InContainer(hooks: seq<Hook>, c: string): seq<Hook> {
    if hooks == [] then []
    else
      var last := hooks[|hooks| - 1];
      InContainer(hooks[..|hooks| - 1], c) + if last.container == c then [last] else []
  }

  ghost predicate GroupsAt(byContainer: Hooks, hooks: seq<Hook>, c: string) {
    InContainer(hooks, c) == if c in byContainer then byContainer[c] else []
  }

  /** Each container has its hooks, in the order in which they are specified. */
  ghost predicate Groups(byContainer: Hooks, hooks: seq<Hook>) {
    && (forall c :: GroupsAt(byContainer, hooks, c))
    && (forall c | c in byContainer :: byContainer[c] != [])
  }

  /** `hooks` are grouped in `byContainer`, and registered on top of what the statuses `was` held. */
  ghost predicate Registered(pod: Pod, was: Statuses, now: Statuses, byContainer: Hooks, hooks: seq<Hook>) {
    && Executed(now) == Executed(was) && now.Keys == was.Keys + KeysOf(pod, byContainer)
    && Filed(byContainer) && Groups(byContainer, hooks)
  }

  lemma NothingRegistered(pod: Pod, was: Statuses)
    ensures Registered(pod, was, was, map[], [])
  {
  }

  lemma GroupsOneMore(byContainer: Hooks, hooks: seq<Hook>, h: Hook)
    requires Groups(byContainer, hooks)
    ensures Groups(Append(byContainer, h), hooks + [h])
  {
    assert (hooks + [h])[..|hooks|] == hooks;
    forall c
      ensures GroupsAt(Append(byContainer, h), hooks + [h], c)
    {
      assert GroupsAt(byContainer, hooks, c);
    }
  }

  /** What is returned is exactly what is meant for the pod, and exactly that is registered. */
  method GroupRestoreExecHooks(pod: Pod, annotation: Option<HookSpec>, resourceHooks: seq<ResourceHook>,
      tracker: HookTracker) returns (byContainer: Hooks)
    requires tracker.Valid()
    modifies tracker
    ensures tracker.Valid()
    ensures Registered(pod, old(tracker.tracker), tracker.tracker, byContainer, Meant(pod, annotation, resourceHooks))
  {
    byContainer := map[];
    NothingRegistered(pod, tracker.tracker);
    if pod.containers == [] {
      return;
    }
    if annotation.Some? {
      var h := ToHook(pod, annotation.value, "<from-annotation>", "annotation", 0);
      assert Meant(pod, annotation, resourceHooks) == [] + [h];
      byContainer := AddHook(pod, byContainer, h, tracker, tracker.tracker, []);
      return;
    }
    byContainer := GroupResourceHooks(pod, resourceHooks, tracker);
  }

  method GroupResourceHooks(pod: Pod, resourceHooks: seq<ResourceHook>, tracker: HookTracker) returns (byContainer: Hooks)
    requires tracker.Valid() && pod.containers != []
    modifies tracker
    ensures tracker.Valid()
    ensures Registered(pod, old(tracker.tracker), tracker.tracker, byContainer,
                       FromResources(pod, resourceHooks, |resourceHooks|))
  {
    byContainer := map[];
    ghost var was := tracker.tracker;
    NothingRegistered(pod, was);
    for r := 0 to |resourceHooks|
      invariant tracker.Valid()
      invariant Registered(pod, was, tracker.tracker, byContainer, FromResources(pod, resourceHooks, r))
    {
      ghost var sofar := FromResources(pod, resourceHooks, r);
      if !resourceHooks[r].applicable {
        assert FromResources(pod, resourceHooks, r + 1) == sofar;
        continue;
      }
      byContainer := GroupResourceHook(pod, byContainer, resourceHooks[r], tracker, was, sofar);
    }
  }

  method GroupResourceHook(pod: Pod, grouped: Hooks, resourceHook: ResourceHook, tracker: HookTracker,
      ghost was: Statuses, ghost before: seq<Hook>) returns (byContainer: Hooks)
    requires tracker.Valid() && pod.containers != [] && Registered(pod, was, tracker.tracker, grouped, before)
    modifies tracker
    ensures tracker.Valid()
    ensures Registered(pod, was, tracker.tracker, byContainer,
                       before + FromSpecs(pod, resourceHook, |resourceHook.hooks|))
  {
    byContainer := grouped;
    var specs := resourceHook.hooks;
    assert before + FromSpecs(pod, resourceHook, 0) == before;
    for i := 0 to |specs|
      invariant tracker.Valid() && RegisteredUpTo(pod, was, tracker.tracker, byContainer, before, resourceHook, i)
    {
      if !specs[i].isExec {
        SkipSpec(pod, was, tracker.tracker, byContainer, before, resourceHook, i);
        continue;
      }
      var h := ToHook(pod, specs[i], resourceHook.name, "spec", i);
      byContainer := AddHook(pod, byContainer, h, tracker, was, before + FromSpecs(pod, resourceHook, i));
      AddSpec(pod, was, tracker.tracker, byContainer, before, resourceHook, i);
    }
  }

  ghost predicate RegisteredUpTo(pod: Pod, was: Statuses, now: Statuses, byContainer: Hooks, before: seq<Hook>,
                                 r: ResourceHook, i: nat)
    requires pod.containers != [] && i <= |r.hooks|
  {
    Registered(pod, was, now, byContainer, before + FromSpecs(pod, r, i))
  }

  lemma SkipSpec(pod: Pod, was: Statuses, now: Statuses, byContainer: Hooks, before: seq<Hook>, r: ResourceHook, i: nat)
    requires pod.containers != [] && i < |r.hooks| && !r.hooks[i].isExec
    requires RegisteredUpTo(pod, was, now, byContainer, before, r, i)
    ensures RegisteredUpTo(pod, was, now, byContainer, before, r, i + 1)
  {
    assert FromSpecs(pod, r, i + 1) == FromSpecs(pod, r, i);
  }

  lemma AddSpec(pod: Pod, was: Statuses, now: Statuses, byContainer: Hooks, before: seq<Hook>, r: ResourceHook, i: nat)
    requires pod.containers != [] && i < |r.hooks| && r.hooks[i].isExec
    requires Registered(pod, was, now, byContainer,
                        before + FromSpecs(pod, r, i) + [ToHook(pod, r.hooks[i], r.name, "spec", i)])
    ensures RegisteredUpTo(pod, was, now, byContainer, before, r, i + 1)
  {
    assert before + FromSpecs(pod, r, i + 1)
        == before + FromSpecs(pod, r, i) + [ToHook(pod, r.hooks[i], r.name, "spec", i)];
  }

  method AddHook(pod: Pod, byContainer: Hooks, h: Hook, tracker: HookTracker, ghost was: Statuses,
      ghost hooks: seq<Hook>) returns (after: Hooks)
    requires tracker.Valid() && Registered(pod, was, tracker.tracker, byContainer, hooks)
    modifies tracker
    ensures tracker.Valid() && Registered(pod, was, tracker.tracker, after, hooks + [h])
  {
    ghost var now := tracker.tracker;
    tracker.Add(KeyOf(pod, h));
    after := Append(byContainer, h);
    RegisteredOneMore(pod, was, now, tracker.tracker, byContainer, hooks, h);
  }

  lemma RegisteredOneMore(pod: Pod, was: Statuses, now: Statuses, now': Statuses, byContainer: Hooks,
      hooks: seq<Hook>, h: Hook)
    requires Registered(pod, was, now, byContainer, hooks)
    requires Executed(now') == Executed(now) && now'.Keys == now.Keys + {KeyOf(pod, h)}
    ensures Registered(pod, was, now', Append(byContainer, h), hooks + [h])
  {
    AppendAddsKey(pod, byContainer, h);
    GroupsOneMore(byContainer, hooks, h);
  }
}
