/** Every outcome of the reconcile method, run without interruption, is a run of the machine's queue-controller steps. */
module QueueRefinement {
  import opened BackupTracking
  import opened BackupQueue
  import opened QueueMachine
  import opened QueueReconciler
  import opened QueuePass

  predicate IsControllerStep(step: Step) {
    || step.ReadNew? || step.PatchEnqueue? || step.ReadQueued? || step.CheckSlots? || step.CheckConflicts?
    || step.PatchDequeue? || step.PatchPosition? || step.EndRenumbering?
  }

  /** The controller gets from `s` to `s'` by its own steps. */
  ghost predicate LeadsTo(s: State, steps: seq<Step>, s': State)
    decreases |steps|
  {
    if steps == [] then s == s'
    else Enabled(s, steps[0]) && IsControllerStep(steps[0]) && LeadsTo(Apply(s, steps[0]), steps[1..], s')
  }

  lemma OneStep(s: State, step: Step, next: State)
    requires Enabled(s, step) && IsControllerStep(step) && next == Apply(s, step)
    ensures LeadsTo(s, [step], next)
  {
    assert LeadsTo(next, [step][1..], next);
  }

  lemma {:induction false} Join(s: State, first: seq<Step>, mid: State, second: seq<Step>, last: State)
    requires LeadsTo(s, first, mid) && LeadsTo(mid, second, last)
    ensures LeadsTo(s, first + second, last)
    decreases |first|
  {
    if first == [] {
      assert first + second == second;
    } else {
      Join(Apply(s, first[0]), first[1..], mid, second, last);
      assert (first + second)[1..] == first[1..] + second;
    }
  }

  lemma Then(s: State, first: seq<Step>, mid: State, step: Step, last: State) returns (steps: seq<Step>)
    requires LeadsTo(s, first, mid)
    requires Enabled(mid, step) && IsControllerStep(step) && last == Apply(mid, step)
    ensures LeadsTo(s, steps, last)
  {
    OneStep(mid, step, last);
    Join(s, first, mid, [step], last);
    steps := first + [step];
  }

  /** From an admissible queued backup to the point where its ReadyToStart entry is recorded. */
  lemma RunToRecorded(s: State, n: Name) returns (steps: seq<Step>)
    requires s.queue.Idle? && IsQueued(s.api, n)
    requires s.tracker.RunningCount() < s.limit && Admissible(s.api, n)
    ensures LeadsTo(s, steps, s.(queue := Recorded(n, s.api), tracker := s.tracker.AddReadyToStart(n)))
  {
    var read := s.(queue := ListRead(n, s.api));
    var free := s.(queue := SlotFree(n, s.api));
    OneStep(s, ReadQueued(n), read);
    steps := Then(s, [ReadQueued(n)], read, CheckSlots, free);
    steps := Then(s, steps, free, CheckConflicts,
      s.(queue := Recorded(n, s.api), tracker := s.tracker.AddReadyToStart(n)));
  }

  lemma {:induction false} RunRenumbering(s: State, start: Api, order: seq<Name>, k: nat) returns (steps: seq<Step>)
    requires s.queue == Renumbering(order, 0) && s.api == start && k <= |order|
    requires forall m | m in order :: m in start
    ensures LeadsTo(s, steps, s.(api := Renumbered(start, order, k), queue := Renumbering(order, k)))
  {
    if k == 0 {
      steps := [];
    } else {
      steps := RunRenumbering(s, start, order, k - 1);
      var mid := s.(api := Renumbered(start, order, k - 1), queue := Renumbering(order, k - 1));
      assert order[k - 1] in order;
      steps := Then(s, steps, mid, PatchPosition(true),
        s.(api := Renumbered(start, order, k), queue := Renumbering(order, k)));
    }
  }

  lemma RunDequeue(s: State, n: Name, order: seq<Name>, k: nat, api': Api) returns (steps: seq<Step>)
    requires s.queue.Idle? && s.tracker.RunningCount() < s.limit && Admissible(s.api, n)
    requires DequeuedAndRenumbered(s.api, n, order, k, api')
    ensures LeadsTo(s, steps, s.(api := api', tracker := s.tracker.AddReadyToStart(n)))
  {
    steps := RunToRecorded(s, n);
    var recorded := s.(queue := Recorded(n, s.api), tracker := s.tracker.AddReadyToStart(n));
    var start := recorded.(api := Dequeue(s.api, n), queue := Renumbering(order, 0));
    steps := Then(s, steps, recorded, PatchDequeue(true, order), start);
    var more := RunRenumbering(start, start.api, order, k);
    var done := start.(api := api', queue := Renumbering(order, k));
    Join(s, steps, start, more, done);
    steps := steps + more;
    steps := Then(s, steps, done, if k == |order| then EndRenumbering else PatchPosition(false),
      s.(api := api', tracker := s.tracker.AddReadyToStart(n)));
  }

  /** So whatever holds over the machine's runs holds of a reconcile of the code that no worker interrupts. */
  lemma ReconcileIsControllerRun(s: State, n: Name, answers: Answers, api': Api, tracker': TrackerSets)
    requires s.queue.Idle?
    requires Reconciled(s.api, s.tracker, s.limit, n, answers, api', tracker')
    ensures exists steps :: LeadsTo(s, steps, s.(api := api', tracker := tracker'))
  {
    var last := s.(api := api', tracker := tracker');
    if api' == s.api && tracker' == s.tracker {
      assert LeadsTo(s, [], last);
    } else if s.api[n].phase.IsNew() {
      var max :| IsMaxPosition(s.api, max) && api' == Enqueue(s.api, n, max + 1);
      var mid := s.(queue := Enqueuing(n, max + 1));
      OneStep(s, ReadNew(n, max), mid);
      var steps := Then(s, [ReadNew(n, max)], mid, PatchEnqueue(true), last);
    } else if answers.patches(0) {
      var order, k :| DequeuedAndRenumbered(s.api, n, order, k, api') && StopsAfter(answers, |order|, k);
      var steps := RunDequeue(s, n, order, k, api');
    } else {
      var steps := RunToRecorded(s, n);
      var recorded := s.(queue := Recorded(n, s.api), tracker := s.tracker.AddReadyToStart(n));
      steps := Then(s, steps, recorded, PatchDequeue(false, []), last);
    }
  }

  // ----- Passes over the queue -----

  /** Calls that all succeed. */
  function NoFailure(): Answers {
    Answers(true, true, (i: nat) => true)
  }

  /** A reconcile whose calls all succeed is a step of a pass, and the other way round. */
  lemma DispatchIsReconcile(s: Server, limit: nat, n: Name, s': Server)
    requires n in s.api ==> !s.api[n].phase.IsNew()
    ensures Dispatched(s, limit, n, s') <==> Reconciled(s.api, s.tracker, limit, n, NoFailure(), s'.api, s'.tracker)
  {
    if MayStart(s.api, s.tracker, limit, n) {
      if DequeuedInTurn(s.api, n, NoFailure(), s'.api) {
        var order, k :| DequeuedAndRenumbered(s.api, n, order, k, s'.api) && StopsAfter(NoFailure(), |order|, k);
        NothingStopsIt(|order|, k);
      }
      if order :| && IsRemainingQueue(s.api, n, order) && (forall m | m in order :: m in s.api)
                  && s'.api == Renumbered(Dequeue(s.api, n), order, |order|) {
        assert DequeuedAndRenumbered(s.api, n, order, |order|, s'.api);
        NothingStopsIt(|order|, |order|);
      }
    }
  }

  lemma NothingStopsIt(total: nat, k: nat)
    ensures StopsAfter(NoFailure(), total, k) <==> k == total
  {
    if k < total {
      assert NoFailure().patches(k + 1);
    }
  }

  /** And a whole pass is a run of the machine's controller steps. */
  lemma {:induction false} PassIsControllerRun(s: State, q: seq<Name>, states: seq<Server>, k: nat)
    requires s.queue.Idle? && IsPass(q, s.limit, states) && states[0] == Server(s.api, s.tracker) && k <= |q|
    requires forall n | n in q :: IsQueued(s.api, n)
    ensures exists steps :: LeadsTo(s, steps, s.(api := states[k].api, tracker := states[k].tracker))
    ensures forall n | n in q :: n in states[k].api && !states[k].api[n].phase.IsNew()
  {
    if k == 0 {
      assert LeadsTo(s, [], s.(api := states[0].api, tracker := states[0].tracker));
    } else {
      PassIsControllerRun(s, q, states, k - 1);
      var n, now, next := q[k - 1], states[k - 1], states[k - 1 + 1];
      var mid, last := s.(api := now.api, tracker := now.tracker), s.(api := next.api, tracker := next.tracker);
      assert Dispatched(now, s.limit, n, next) && n in q;
      DispatchIsReconcile(now, s.limit, n, next);
      ReconcileIsControllerRun(mid, n, NoFailure(), next.api, next.tracker);
      var first :| LeadsTo(s, first, mid);
      var second :| LeadsTo(mid, second, mid.(api := next.api, tracker := next.tracker));
      Join(s, first, mid, second, last);
      DispatchKeepsPhases(now, s.limit, n, next);
    }
  }

  lemma DispatchKeepsPhases(s: Server, limit: nat, n: Name, s': Server)
    requires Dispatched(s, limit, n, s')
    ensures forall m | m in s.api :: m in s'.api && (s'.api[m].phase.IsNew() ==> s.api[m].phase.IsNew())
  {
    if s' != s {
      var order :| && IsRemainingQueue(s.api, n, order) && (forall m | m in order :: m in s.api)
                   && s'.api == Renumbered(Dequeue(s.api, n), order, |order|);
      assert s'.api.Keys == s.api.Keys;
      forall m | m in s.api
        ensures s'.api[m].phase == Dequeue(s.api, n)[m].phase
      {
        PhaseKept(Dequeue(s.api, n), order, |order|, m);
      }
    }
  }

  lemma {:induction false} PhaseKept(api: Api, order: seq<Name>, k: nat, m: Name)
    requires k <= |order| && (forall n | n in order :: n in api) && m in api
    ensures m in Renumbered(api, order, k) && Renumbered(api, order, k)[m].phase == api[m].phase
  {
    if k > 0 {
      PhaseKept(api, order, k - 1, m);
    }
  }

  /** From any reachable idle state, a pass over the queue starts exactly the first runnable backups that fit. */
  lemma PassFromReachableState(s: State, q: seq<Name>, states: seq<Server>)
    requires Inv(s) && s.queue.Idle? && IsQueue(s.api, q)
    requires IsPass(q, s.limit, states) && states[0] == Server(s.api, s.tracker)
    ensures exists steps :: LeadsTo(s, steps, s.(api := states[|q|].api, tracker := states[|q|].tracker))
    ensures var r, free := RunnableOf(s.api, q), s.limit - s.tracker.RunningCount();
            && free >= 0
            && (forall k | 0 <= k < |r| ::
                  if k < free then IsRunning(states[|q|].api, r[k]) else IsQueued(states[|q|].api, r[k]))
            && (forall n | n in q && n !in r :: IsQueued(states[|q|].api, n))
  {
    forall n | n in q
      ensures IsQueued(s.api, n)
    {
    }
    PassIsControllerRun(s, q, states, |q|);
    PassStartsTheFirstRunnable(Server(s.api, s.tracker), q, s.limit, states);
  }
}
