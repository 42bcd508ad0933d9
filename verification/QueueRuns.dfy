/** What holds over whole runs of the queue machine, however its steps interleave. */
module QueueRuns {
  import opened BackupPhases
  import opened BackupTracking
  import opened BackupQueue
  import opened QueueMachine

  ghost predicate IsRun(states: seq<State>, steps: seq<Step>) {
    && |states| == |steps| + 1 && Init(states[0])
    && forall i | 0 <= i < |steps| :: Next(states[i], steps[i], states[i + 1])
  }

  ghost predicate Next(s: State, step: Step, s': State) {
    Enabled(s, step) && s' == Apply(s, step)
  }

  lemma {:induction false} RunKeepsInv(states: seq<State>, steps: seq<Step>, i: nat)
    requires IsRun(states, steps) && i < |states|
    ensures Inv(states[i])
  {
    if i == 0 {
      InitInv(states[0]);
    } else {
      RunKeepsInv(states, steps, i - 1);
      assert Next(states[i - 1], steps[i - 1], states[i]);
      StepKeepsInv(states[i - 1], steps[i - 1]);
    }
  }

  lemma {:induction false} RunKeepsLimit(states: seq<State>, steps: seq<Step>, i: nat)
    requires IsRun(states, steps) && i < |states|
    ensures states[i].limit == states[0].limit
  {
    if i > 0 {
      RunKeepsLimit(states, steps, i - 1);
      assert Next(states[i - 1], steps[i - 1], states[i]);
    }
  }

  /** Never more backups are counted than may run at once, and the tracker sets stay apart. */
  lemma ConcurrencyBound(states: seq<State>, steps: seq<Step>, i: nat)
    requires IsRun(states, steps) && i < |states|
    ensures states[i].tracker.RunningCount() <= states[0].limit
    ensures states[i].tracker.Disjoint()
  {
    RunKeepsInv(states, steps, i);
    RunKeepsLimit(states, steps, i);
  }

  /** The namespaces of all backups that are ReadyToStart or InProgress are pairwise disjoint. */
  lemma NamespaceExclusion(states: seq<State>, steps: seq<Step>, i: nat, m: Name, n: Name)
    requires IsRun(states, steps) && i < |states|
    requires IsRunning(states[i].api, m) && IsRunning(states[i].api, n) && m != n
    ensures states[i].api[m].namespaces !! states[i].api[n].namespaces
  {
    RunKeepsInv(states, steps, i);
    var common := states[i].api[m].namespaces * states[i].api[n].namespaces;
    assert !Overlap(states[i].api[m], states[i].api[n]) && common == {};
    forall x | x in states[i].api[m].namespaces
      ensures x !in states[i].api[n].namespaces
    {
      assert x !in common;
    }
  }

  /** Queued backups hold distinct positions of at least 1, also where a renumbering stopped half way. */
  lemma PositionsStayDistinct(states: seq<State>, steps: seq<Step>, i: nat)
    requires IsRun(states, steps) && i < |states|
    ensures WellPositioned(states[i].api)
  {
    RunKeepsInv(states, steps, i);
  }

  /** When the renumbering ends, whoever is still queued holds its rank in the queue that was renumbered. */
  lemma CompleteRenumberingCountsFromOne(states: seq<State>, steps: seq<Step>, i: nat)
    requires IsRun(states, steps) && i < |steps| && steps[i].EndRenumbering?
    ensures var s := states[i];
            && s.queue.Renumbering?
            && (forall n :: IsQueued(s.api, n) <==> n in s.queue.order && n in s.api)
            && forall k | 0 <= k < |s.queue.order| && s.queue.order[k] in s.api ::
                 s.api[s.queue.order[k]].queuePosition == k + 1
  {
    RunKeepsInv(states, steps, i);
    assert Next(states[i], steps[i], states[i + 1]);
    var s := states[i];
    forall k | 0 <= k < |s.queue.order| && s.queue.order[k] in s.api
      ensures s.api[s.queue.order[k]].queuePosition == k + 1
    {
      assert Position(s.api, s.queue.order[k]) == k + 1;
    }
  }

  // ----- Counting -----

  /** A backup is stranded once the patch that ends its run has failed. */
  lemma {:induction false} StrandedMeansFailedEnd(states: seq<State>, steps: seq<Step>, i: nat, n: Name)
    requires IsRun(states, steps) && i < |states|
    ensures n in states[i].stranded <==> exists j :: 0 <= j < i && steps[j] == PatchEnd(n, false)
  {
    if i > 0 {
      StrandedMeansFailedEnd(states, steps, i - 1, n);
      assert Next(states[i - 1], steps[i - 1], states[i]);
      if steps[i - 1] == PatchEnd(n, false) {
        assert n in states[i].stranded;
      }
    }
  }

  /**
   Outside its own reconcile, a backup the API shows as running is counted by the tracker if and only if no status
   patch ending its run has failed.
   */
  lemma CountedUnlessEndPatchFailed(states: seq<State>, steps: seq<Step>, i: nat, n: Name)
    requires IsRun(states, steps) && i < |states|
    requires IsRunning(states[i].api, n) && n !in states[i].workers
    ensures states[i].tracker.Counts(n) <==> !(exists j :: 0 <= j < i && steps[j] == PatchEnd(n, false))
  {
    RunKeepsInv(states, steps, i);
    StrandedMeansFailedEnd(states, steps, i, n);
  }

  /** If all those patches succeed, everything that runs is counted, also in the middle of a reconcile. */
  lemma RunningIsCountedWhenPatchesSucceed(states: seq<State>, steps: seq<Step>, i: nat, n: Name)
    requires IsRun(states, steps) && i < |states|
    requires forall j | 0 <= j < i :: !(steps[j].PatchEnd? && !steps[j].ok)
    requires IsRunning(states[i].api, n)
    ensures states[i].tracker.Counts(n)
  {
    RunKeepsInv(states, steps, i);
    StrandedMeansFailedEnd(states, steps, i, n);
  }

  ghost predicate Reachable(s: State) {
    exists states: seq<State>, steps: seq<Step> :: IsRun(states, steps) && states[|steps|] == s
  }

  lemma Reach(s: State, step: Step, next: State)
    requires Reachable(s) && Enabled(s, step) && next == Apply(s, step)
    ensures Reachable(next)
  {
    var states: seq<State>, steps: seq<Step> :| IsRun(states, steps) && states[|steps|] == s;
    var states', steps' := states + [next], steps + [step];
    assert IsRun(states', steps') && states'[|steps'|] == next;
  }

  function ExampleState(b: Backup, ready: set<Key>, inProgress: set<Key>, queue: QueueWorker,
      workers: map<Name, Worker>): State
  {
    State(1, map["a" := b], {"a"}, TrackerSets(ready, inProgress, {}), queue, workers, {})
  }

  lemma CreatedExample()
    ensures Reachable(ExampleState(Backup(Phase.New, 0, {"ns"}), {}, {}, Idle, map[]))
  {
    var start := State(1, map[], {}, TrackerSets({}, {}, {}), Idle, map[], {});
    assert IsRun([start], []) && [start][0] == start;
    Reach(start, Create("a", Phase.New, {"ns"}), ExampleState(Backup(Phase.New, 0, {"ns"}), {}, {}, Idle, map[]));
  }

  /** One backup, queued in front of a single free slot. */
  lemma QueuedExample()
    ensures Reachable(ExampleState(Backup(Phase.Queued, 1, {"ns"}), {}, {}, Idle, map[]))
  {
    CreatedExample();
    var unseen := ExampleState(Backup(Phase.New, 0, {"ns"}), {}, {}, Idle, map[]);
    var enqueuing := unseen.(queue := Enqueuing("a", 1));
    Reach(unseen, ReadNew("a", 0), enqueuing);
    Reach(enqueuing, PatchEnqueue(true), ExampleState(Backup(Phase.Queued, 1, {"ns"}), {}, {}, Idle, map[]));
  }

  lemma RecordedExample()
    ensures var waiting := Backup(Phase.Queued, 1, {"ns"});
            Reachable(ExampleState(waiting, {"a"}, {}, Recorded("a", map["a" := waiting]), map[]))
  {
    var waiting := Backup(Phase.Queued, 1, {"ns"});
    var snap := map["a" := waiting];
    QueuedExample();
    var read := ExampleState(waiting, {}, {}, ListRead("a", snap), map[]);
    Reach(ExampleState(waiting, {}, {}, Idle, map[]), ReadQueued("a"), read);
    var free := read.(queue := SlotFree("a", snap));
    Reach(read, CheckSlots, free);
    assert Admissible(snap, "a");
    Reach(free, CheckConflicts, free.(queue := Recorded("a", snap), tracker := TrackerSets({"a"}, {}, {})));
  }

  const EXAMPLE_DONE := Renumbering([], 0)

  lemma ReadyExample()
    ensures Reachable(ExampleState(Backup(ReadyToStart, 0, {"ns"}), {"a"}, {}, EXAMPLE_DONE, map[]))
  {
    var waiting := Backup(Phase.Queued, 1, {"ns"});
    RecordedExample();
    Reach(ExampleState(waiting, {"a"}, {}, Recorded("a", map["a" := waiting]), map[]), PatchDequeue(true, []),
      ExampleState(Backup(ReadyToStart, 0, {"ns"}), {"a"}, {}, EXAMPLE_DONE, map[]));
  }

  lemma StartedExample()
    ensures Reachable(ExampleState(Backup(InProgress, 0, {"ns"}), {"a"}, {}, EXAMPLE_DONE, map["a" := Started(true)]))
  {
    ReadyExample();
    var ready := ExampleState(Backup(ReadyToStart, 0, {"ns"}), {"a"}, {}, EXAMPLE_DONE, map[]);
    var prepared := ready.(workers := map["a" := Prepared(true)]);
    Reach(ready, Prepare("a", true), prepared);
    Reach(prepared, PatchStart("a", true),
      ExampleState(Backup(InProgress, 0, {"ns"}), {"a"}, {}, EXAMPLE_DONE, map["a" := Started(true)]));
  }

  lemma RanExample()
    ensures Reachable(ExampleState(Backup(InProgress, 0, {"ns"}), {}, {"a"}, EXAMPLE_DONE, map["a" := Ran(Finalizing)]))
  {
    StartedExample();
    var started := ExampleState(Backup(InProgress, 0, {"ns"}), {"a"}, {}, EXAMPLE_DONE, map["a" := Started(true)]);
    var inRun := started.(tracker := TrackerSets({}, {"a"}, {}), workers := map["a" := InRun]);
    Reach(started, TrackStart("a"), inRun);
    Reach(inRun, FinishRun("a", Finalizing), inRun.(workers := map["a" := Ran(Finalizing)]));
  }

  /** The bound is on the tracker, not on the API: after a failed end patch a backup the API shows holds no slot. */
  lemma FailedEndPatchLeavesBackupUncounted()
    ensures exists s ::
              Reachable(s) && s.limit == 1 && IsRunning(s.api, "a") && s.tracker.RunningCount() == 0
  {
    RanExample();
    var ran := ExampleState(Backup(InProgress, 0, {"ns"}), {}, {"a"}, EXAMPLE_DONE, map["a" := Ran(Finalizing)]);
    var patched := ran.(workers := map["a" := Patched(Finalizing)], stranded := {"a"});
    Reach(ran, PatchEnd("a", false), patched);
    var last := patched.(workers := map[], tracker := TrackerSets({}, {}, {"a"}));
    Reach(patched, Untrack("a"), last);
  }

  // ----- First come, first served among conflicting backups -----

  ghost predicate OnceQueued(s: State, n: Name) {
    n in s.created && (n in s.api ==> !s.api[n].phase.IsNew())
  }

  /** One step cannot let `b` overtake `a`, except by starting it when the two share no namespace. */
  lemma NoOvertaking(s: State, step: Step, a: Name, b: Name)
    requires Inv(s) && Enabled(s, step)
    requires Before(s.api, a, b)
    ensures var api' := Apply(s, step).api;
            IsQueued(api', a) && b in api' ==> Before(api', a, b) || !Overlap(s.api[a], s.api[b])
  {
    var api' := Apply(s, step).api;
    if IsQueued(api', a) && b in api' {
      if IsQueued(api', b) {
        OrderKept(s, step, a, b);
      } else {
        OnlyDequeueLeavesTheQueue(s, step, b);
        DequeuedSharesNothing(s, a);
      }
    }
  }

  lemma OnlyDequeueLeavesTheQueue(s: State, step: Step, n: Name)
    requires Inv(s) && Enabled(s, step)
    requires IsQueued(s.api, n) && n in Apply(s, step).api && !IsQueued(Apply(s, step).api, n)
    ensures step.PatchDequeue? && s.queue.name == n
  {
  }

  lemma OnceQueuedNeverNew(s: State, step: Step, n: Name)
    requires Inv(s) && Enabled(s, step) && OnceQueued(s, n)
    ensures OnceQueued(Apply(s, step), n)
    ensures IsQueued(Apply(s, step).api, n) ==> IsQueued(s.api, n)
    ensures n in Apply(s, step).api ==> n in s.api && Apply(s, step).api[n].namespaces == s.api[n].namespaces
  {
    if step.PatchStart? || step.PatchEnd? {
      assert WorkerConsistent(s, step.n);
    }
  }

  /** While `a` is still queued, a later conflicting `b` is still queued behind it, or gone. */
  lemma {:induction false} ConflictFifo(states: seq<State>, steps: seq<Step>, i: nat, j: nat, a: Name, b: Name)
    requires IsRun(states, steps) && i <= j < |states|
    requires Before(states[i].api, a, b) && Overlap(states[i].api[a], states[i].api[b])
    ensures OnceQueued(states[j], a) && OnceQueued(states[j], b)
    ensures a in states[j].api ==> states[j].api[a].namespaces == states[i].api[a].namespaces
    ensures b in states[j].api ==> states[j].api[b].namespaces == states[i].api[b].namespaces
    ensures IsQueued(states[j].api, a) && b in states[j].api ==> Before(states[j].api, a, b)
    decreases j
  {
    RunKeepsInv(states, steps, j);
    if i < j {
      ConflictFifo(states, steps, i, j - 1, a, b);
      RunKeepsInv(states, steps, j - 1);
      var s, step := states[j - 1], steps[j - 1];
      assert Next(states[j - 1], steps[j - 1], states[j]);
      OnceQueuedNeverNew(s, step, a);
      OnceQueuedNeverNew(s, step, b);
      if IsQueued(states[j].api, a) && b in states[j].api {
        NoOvertaking(s, step, a, b);
      }
    }
  }

  /** So the later of two conflicting backups never starts while the earlier one waits. */
  lemma LaterConflictingBackupWaits(states: seq<State>, steps: seq<Step>, i: nat, j: nat, a: Name, b: Name)
    requires IsRun(states, steps) && i <= j < |states|
    requires Before(states[i].api, a, b) && Overlap(states[i].api[a], states[i].api[b])
    requires IsQueued(states[j].api, a)
    ensures !IsRunning(states[j].api, b)
  {
    ConflictFifo(states, steps, i, j, a, b);
  }

  /** Relative order in the queue never changes, for any two backups that are both still queued. */
  lemma {:induction false} OrderIsStable(states: seq<State>, steps: seq<Step>, i: nat, j: nat, a: Name, b: Name)
    requires IsRun(states, steps) && i <= j < |states|
    requires Before(states[i].api, a, b)
    ensures OnceQueued(states[j], a) && OnceQueued(states[j], b)
    ensures IsQueued(states[j].api, a) && IsQueued(states[j].api, b) ==> Before(states[j].api, a, b)
    decreases j
  {
    RunKeepsInv(states, steps, j);
    if i < j {
      OrderIsStable(states, steps, i, j - 1, a, b);
      RunKeepsInv(states, steps, j - 1);
      var s, step := states[j - 1], steps[j - 1];
      assert Next(states[j - 1], steps[j - 1], states[j]);
      OnceQueuedNeverNew(s, step, a);
      OnceQueuedNeverNew(s, step, b);
      if IsQueued(states[j].api, a) && IsQueued(states[j].api, b) {
        OrderKept(s, step, a, b);
      }
    }
  }

  lemma OrderKept(s: State, step: Step, a: Name, b: Name)
    requires Inv(s) && Enabled(s, step)
    requires Before(s.api, a, b)
    requires IsQueued(Apply(s, step).api, a) && IsQueued(Apply(s, step).api, b)
    ensures Before(Apply(s, step).api, a, b)
  {
    if step.PatchPosition? && step.ok {
      var order := s.queue.order;
      assert a in order && b in order;
      PositionPatched(s.api, order, s.queue.next);
      var i, j := IndexOf(order, a), IndexOf(order, b);
      assert order[i] == a && order[j] == b && Position(s.api, a) < Position(s.api, b);
      assert i < j;
    }
  }
}
