/**
 The queue controller, its tracker and the backup workers as one transition system.

 The queue controller is a single worker: its reconcile is cut at every API call and tracker call, and anything
 else may happen in between. Backup workers run concurrently, at most one per backup. Reads are fresh, a failed
 patch has no effect, and backup names are not reused.
 */
module QueueMachine {
  import opened BackupPhases
  import opened BackupTracking
  import opened BackupQueue

  /** Where the queue controller is inside its reconcile. `snap` is the list it read. */
  datatype QueueWorker =
    | Idle
    | Enqueuing(name: Name, position: int)
    | ListRead(name: Name, snap: Api)
    | SlotFree(name: Name, snap: Api)
    | Recorded(name: Name, snap: Api)
    | Renumbering(order: seq<Name>, next: nat)

  /** Where a backup worker is inside its reconcile. */
  datatype Worker =
    | Prepared(valid: bool)
    | Started(valid: bool)
    | InRun
    | Ran(result: Phase)
    | Patched(result: Phase)

  datatype State = State(
    limit: nat,
    api: Api,
    created: set<Name>,          // every name that ever existed
    tracker: TrackerSets,
    queue: QueueWorker,
    workers: map<Name, Worker>,
    stranded: set<Name>          // backups whose final status patch failed
  )

  datatype Step =
    | Create(n: Name, phase: Phase, namespaces: set<string>)
    | DeleteBackup(n: Name)
    | ReadNew(n: Name, max: int)
    | PatchEnqueue(ok: bool)
    | ReadQueued(n: Name)
    | CheckSlots
    | CheckConflicts
    | PatchDequeue(ok: bool, order: seq<Name>)
    | PatchPosition(ok: bool)
    | EndRenumbering
    | Prepare(n: Name, valid: bool)
    | PatchStart(n: Name, ok: bool)
    | TrackStart(n: Name)
    | FinishRun(n: Name, result: Phase)
    | PatchEnd(n: Name, ok: bool)
    | Untrack(n: Name)
    | PostPatch(n: Name, phase: Phase)
    | PostUntrack(n: Name)

  ghost predicate Init(s: State) {
    && s.limit >= 1
    && s.api == map[] && s.created == {} && s.tracker == TrackerSets({}, {}, {})
    && s.queue == Idle && s.workers == map[] && s.stranded == {}
  }

  ghost predicate Enabled(s: State, step: Step) {
    match step
    case Create(n, phase, _) => n !in s.created && phase.IsNew()
    // A backup that is ReadyToStart is not deleted: its tracker entry would outlive it.
    case DeleteBackup(n) => n in s.api && !s.api[n].phase.ReadyToStart?
    case ReadNew(n, max) => s.queue.Idle? && n in s.api && s.api[n].phase.IsNew() && IsMaxPosition(s.api, max)
    case PatchEnqueue(ok) => s.queue.Enqueuing? && (ok ==> s.queue.name in s.api)
    case ReadQueued(n) => s.queue.Idle? && IsQueued(s.api, n)
    case CheckSlots => s.queue.ListRead?
    case CheckConflicts => s.queue.SlotFree?
    case PatchDequeue(ok, order) =>
      && s.queue.Recorded?
      && (ok ==> s.queue.name in s.api && IsRemainingQueue(s.queue.snap, s.queue.name, order))
    case PatchPosition(ok) =>
      && s.queue.Renumbering? && s.queue.next < |s.queue.order|
      && (ok ==> s.queue.order[s.queue.next] in s.api)
    case EndRenumbering => s.queue.Renumbering? && s.queue.next == |s.queue.order|
    case Prepare(n, _) => n in s.api && s.api[n].phase.ReadyToStart? && n !in s.workers
    case PatchStart(n, ok) => n in s.workers && s.workers[n].Prepared? && (ok ==> n in s.api)
    case TrackStart(n) => n in s.workers && s.workers[n].Started?
    case FinishRun(n, result) =>
      && n in s.workers && s.workers[n].InRun?
      && (result.Failed? || result.IsPostProcessing())
    case PatchEnd(n, ok) => n in s.workers && s.workers[n].Ran? && (ok ==> n in s.api)
    case Untrack(n) => n in s.workers && s.workers[n].Patched?
    case PostPatch(n, phase) =>
      && n in s.api && s.api[n].phase.IsPostProcessing()
      && (phase.IsPostProcessing() || phase.Completed? || phase.PartiallyFailed?)
    case PostUntrack(n) => n in s.api && s.api[n].phase.IsPostProcessing()
  }

  function WithPhase(api: Api, n: Name, phase: Phase): Api
    requires n in api
  {
    api[n := api[n].(phase := phase)]
  }

  ghost function Apply(s: State, step: Step): State
    requires Enabled(s, step)
  {
    match step
    case Create(n, phase, namespaces) =>
      s.(api := s.api[n := Backup(phase, 0, namespaces)], created := s.created + {n})
    case DeleteBackup(n) => s.(api := s.api - {n})
    case ReadNew(n, max) => s.(queue := Enqueuing(n, max + 1))
    case PatchEnqueue(ok) =>
      if ok then s.(api := Enqueue(s.api, s.queue.name, s.queue.position), queue := Idle) else s.(queue := Idle)
    case ReadQueued(n) => s.(queue := ListRead(n, s.api))
    case CheckSlots =>
      if s.tracker.RunningCount() >= s.limit then s.(queue := Idle)
      else s.(queue := SlotFree(s.queue.name, s.queue.snap))
    case CheckConflicts =>
      if Admissible(s.queue.snap, s.queue.name) then
        s.(queue := Recorded(s.queue.name, s.queue.snap), tracker := s.tracker.AddReadyToStart(s.queue.name))
      else s.(queue := Idle)
    case PatchDequeue(ok, order) =>
      if ok then s.(api := Dequeue(s.api, s.queue.name), queue := Renumbering(order, 0))
      else s.(tracker := s.tracker.Delete(s.queue.name), queue := Idle)
    case PatchPosition(ok) =>
      if ok then
        s.(api := SetPosition(s.api, s.queue.order[s.queue.next], s.queue.next + 1),
           queue := Renumbering(s.queue.order, s.queue.next + 1))
      else s.(queue := Idle)
    case EndRenumbering => s.(queue := Idle)
    case Prepare(n, valid) => s.(workers := s.workers[n := Prepared(valid)])
    case PatchStart(n, ok) =>
      if ok then
        s.(api := WithPhase(s.api, n, if s.workers[n].valid then InProgress else FailedValidation),
           workers := s.workers[n := Started(s.workers[n].valid)])
      else s.(workers := s.workers - {n})
    case TrackStart(n) =>
      s.(tracker := s.tracker.Add(n),
         workers := s.workers[n := if s.workers[n].valid then InRun else Patched(FailedValidation)])
    case FinishRun(n, result) => s.(workers := s.workers[n := Ran(result)])
    case PatchEnd(n, ok) =>
      var closing := s.workers[n := Patched(s.workers[n].result)];
      if ok then s.(api := WithPhase(s.api, n, s.workers[n].result), workers := closing)
      else s.(workers := closing, stranded := s.stranded + {n})
    case Untrack(n) =>
      s.(tracker := if s.workers[n].result.IsTerminal() then s.tracker.Delete(n) else s.tracker.AddPostProcessing(n),
         workers := s.workers - {n})
    case PostPatch(n, phase) => s.(api := WithPhase(s.api, n, phase))
    case PostUntrack(n) => s.(tracker := s.tracker.Delete(n))
  }

  // ----- The invariant, in parts -----

  /** Nothing refers to a name that never existed. */
  ghost predicate KnownNames(s: State) {
    && s.api.Keys <= s.created && s.workers.Keys <= s.created && s.stranded <= s.created
    && (forall n | s.tracker.Tracks(n) :: n in s.created)
    && (s.queue.ListRead? || s.queue.SlotFree? || s.queue.Recorded? ==>
          s.queue.name in s.created && s.queue.snap.Keys <= s.created)
    && (s.queue.Enqueuing? ==> s.queue.name in s.created)
    && (s.queue.Renumbering? ==> forall n | n in s.queue.order :: n in s.created)
  }

  ghost predicate BoundKept(s: State) {
    && s.tracker.RunningCount() <= s.limit
    && (s.queue.SlotFree? ==> s.tracker.RunningCount() < s.limit)
    && s.tracker.Disjoint()
  }

  /** Every running backup is counted, unless its final patch failed. */
  ghost predicate RunningIsCounted(s: State) {
    && ReadyIsCounted(s)
    && (forall n | IsRunning(s.api, n) && n !in s.stranded :: s.tracker.Counts(n))
    && StrandedConsistent(s)
  }

  ghost predicate ReadyIsCounted(s: State) {
    forall n | n in s.api && s.api[n].phase.ReadyToStart? :: n in s.tracker.ready
  }

  ghost predicate StrandedConsistent(s: State) {
    forall n | n in s.stranded ::
      && (n in s.api ==> s.api[n].phase.InProgress?)
      && (n in s.workers ==> s.workers[n].Patched?)
      && (n !in s.workers ==> !s.tracker.Counts(n))
      && n !in s.tracker.ready
  }

  /** What has not been dequeued is not tracked, apart from the one being dequeued. */
  ghost predicate QueuedIsUntracked(s: State) {
    forall n | n in s.api && (s.api[n].phase.IsNew() || s.api[n].phase.Queued?) ::
      n !in s.workers && (s.tracker.Tracks(n) ==> s.queue.Recorded? && s.queue.name == n)
  }

  ghost predicate WorkerConsistent(s: State, n: Name)
    requires n in s.workers
  {
    match s.workers[n]
    case Prepared(_) => n in s.api && s.api[n].phase.ReadyToStart?
    case Started(valid) =>
      && n in s.tracker.ready
      && (n in s.api ==> s.api[n].phase == if valid then InProgress else FailedValidation)
    case InRun => n in s.tracker.inProgress && (n in s.api ==> s.api[n].phase.InProgress?)
    case Ran(result) =>
      && n in s.tracker.inProgress && (n in s.api ==> s.api[n].phase.InProgress?)
      && (result.Failed? || result.IsPostProcessing())
    case Patched(result) =>
      && n !in s.tracker.ready
      && (result.IsTerminal() || result.IsPostProcessing())
      && (n in s.api ==> !s.api[n].phase.IsNew() && !s.api[n].phase.Queued? && !s.api[n].phase.ReadyToStart?)
      && (n in s.api && s.api[n].phase.InProgress? ==> n in s.stranded)
  }

  ghost predicate WorkersConsistent(s: State) {
    forall n | n in s.workers :: WorkerConsistent(s, n)
  }

  /** Running backups never share a namespace. */
  ghost predicate RunningDisjoint(api: Api) {
    forall m, n | IsRunning(api, m) && IsRunning(api, n) && m != n :: !Overlap(api[m], api[n])
  }

  /** The list read earlier still covers everything that is queued or running now. */
  ghost predicate Covers(snap: Api, api: Api) {
    && WellPositioned(snap)
    && (forall n | IsQueued(api, n) :: n in snap && snap[n] == api[n])
    && (forall n | IsQueued(snap, n) && n in api :: IsQueued(api, n))
    && (forall n | IsRunning(api, n) :: IsRunning(snap, n) && snap[n].namespaces == api[n].namespaces)
  }

  ghost predicate QueueWorkerConsistent(s: State) {
    match s.queue
    case Idle => true
    case Enqueuing(n, position) =>
      && position >= 1 && (forall m | IsQueued(s.api, m) :: s.api[m].queuePosition < position)
      && (n in s.api ==> s.api[n].phase.IsNew())
    case ListRead(n, snap) =>
      Covers(snap, s.api) && DequeueTarget(s, n, snap) && !s.tracker.Tracks(n)
    case SlotFree(n, snap) =>
      Covers(snap, s.api) && DequeueTarget(s, n, snap) && !s.tracker.Tracks(n)
    case Recorded(n, snap) =>
      Covers(snap, s.api) && DequeueTarget(s, n, snap) && n in s.tracker.ready && Admissible(snap, n)
    case Renumbering(order, next) =>
      next <= |order| && Distinct(order) && RenumberingConsistent(s.api, order, next)
  }

  ghost predicate DequeueTarget(s: State, n: Name, snap: Api) {
    IsQueued(snap, n) && n !in s.workers && n !in s.stranded
  }

  /** The renumbered part holds its final positions; the rest is still in front of nobody it was behind. */
  ghost predicate RenumberingConsistent(api: Api, order: seq<Name>, next: nat) {
    && (forall n | IsQueued(api, n) :: n in order)
    && (forall n | n in order && n in api :: IsQueued(api, n))
    && (forall i | 0 <= i < next && i < |order| && order[i] in api :: Position(api, order[i]) == i + 1)
    && (forall i | next <= i < |order| && order[i] in api :: Position(api, order[i]) >= i + 1)
    && (forall i, j | 0 <= i < j < |order| && order[i] in api && order[j] in api ::
          Position(api, order[i]) < Position(api, order[j]))
  }

  ghost predicate Inv(s: State) {
    && KnownNames(s)
    && WellPositioned(s.api)
    && BoundKept(s)
    && RunningIsCounted(s)
    && QueuedIsUntracked(s)
    && WorkersConsistent(s)
    && RunningDisjoint(s.api)
    && QueueWorkerConsistent(s)
  }

  lemma InitInv(s: State)
    requires Init(s)
    ensures Inv(s)
  {
  }

  // ----- Every step keeps every part -----

  lemma KnownNamesKept(s: State, step: Step)
    requires KnownNames(s) && Enabled(s, step) && QueueWorkerConsistent(s)
    ensures KnownNames(Apply(s, step))
  {
  }

  lemma UpdateKeepsPositions(api: Api, n: Name, b: Backup)
    requires WellPositioned(api)
    requires if b.phase.Queued? then b.queuePosition >= 1 else b.queuePosition == 0
    requires b.phase.Queued? ==> forall m | IsQueued(api, m) && m != n :: Position(api, m) != b.queuePosition
    ensures WellPositioned(api[n := b])
  {
    forall m | IsQueued(api[n := b], m) && m != n
      ensures IsQueued(api, m) && api[n := b][m] == api[m]
    {
    }
  }

  lemma WellPositionedKept(s: State, step: Step)
    requires Enabled(s, step)
    requires WellPositioned(s.api) && WorkersConsistent(s) && QueueWorkerConsistent(s)
    ensures WellPositioned(Apply(s, step).api)
  {
    match step
    case Create(n, phase, namespaces) => UpdateKeepsPositions(s.api, n, Backup(phase, 0, namespaces));
    case PatchEnqueue(ok) =>
      if ok {
        UpdateKeepsPositions(s.api, s.queue.name, Enqueue(s.api, s.queue.name, s.queue.position)[s.queue.name]);
      }
    case PatchDequeue(ok, _) =>
      if ok {
        UpdateKeepsPositions(s.api, s.queue.name, Dequeue(s.api, s.queue.name)[s.queue.name]);
      }
    case PatchPosition(ok) =>
      if ok {
        PatchPositionKeepsPositions(s.api, s.queue.order, s.queue.next);
      }
    case PatchStart(_, _) => PhasePatchKeepsPositions(s, step);
    case PatchEnd(_, _) => PhasePatchKeepsPositions(s, step);
    case PostPatch(_, _) => PhasePatchKeepsPositions(s, step);
    case _ =>
  }

  /** The patches of workers and of the later controllers. */
  lemma PhasePatchKeepsPositions(s: State, step: Step)
    requires Enabled(s, step) && (step.PatchStart? || step.PatchEnd? || step.PostPatch?)
    requires WellPositioned(s.api) && WorkersConsistent(s)
    ensures WellPositioned(Apply(s, step).api)
  {
    if step.PostPatch? || step.ok {
      assert step.PostPatch? || WorkerConsistent(s, step.n);
      UpdateKeepsPositions(s.api, step.n, Apply(s, step).api[step.n]);
    }
  }

  lemma PatchPositionKeepsPositions(api: Api, order: seq<Name>, next: nat)
    requires WellPositioned(api) && Distinct(order) && RenumberingConsistent(api, order, next)
    requires next < |order| && order[next] in api
    ensures WellPositioned(SetPosition(api, order[next], next + 1))
  {
    var n := order[next];
    forall m | IsQueued(api, m) && m != n
      ensures Position(api, m) != next + 1
    {
      var i := IndexOf(order, m);
      assert order[i] == m && i != next;
    }
    UpdateKeepsPositions(api, n, api[n].(queuePosition := next + 1));
  }

  lemma BoundKeptByStep(s: State, step: Step)
    requires Enabled(s, step)
    requires BoundKept(s)
    requires step.TrackStart? ==> step.n in s.tracker.ready
    requires step.CheckConflicts? ==> !s.tracker.Tracks(s.queue.name)
    ensures BoundKept(Apply(s, step))
  {
    var t, t' := s.tracker, Apply(s, step).tracker;
    if t' != t {
      var n := if step.CheckConflicts? || step.PatchDequeue? then s.queue.name else step.n;
      SetsStayDisjoint(t, n);
      AddReadyToStartClaimsOneSlot(t, n);
      MovingOnKeepsOrFreesTheSlot(t, n);
      assert t' in {t.AddReadyToStart(n), t.Add(n), t.AddPostProcessing(n), t.Delete(n)};
    }
  }

  lemma StrandedKept(s: State, step: Step)
    requires Enabled(s, step)
    requires KnownNames(s) && s.tracker.Disjoint() && RunningIsCounted(s)
    requires WorkersConsistent(s) && QueueWorkerConsistent(s)
    ensures StrandedConsistent(Apply(s, step))
  {
  }

  lemma ReadyIsCountedKept(s: State, step: Step)
    requires Enabled(s, step)
    requires KnownNames(s) && s.tracker.Disjoint() && RunningIsCounted(s)
    requires WorkersConsistent(s) && QueueWorkerConsistent(s)
    ensures ReadyIsCounted(Apply(s, step))
  {
  }

  lemma RunningIsCountedKept(s: State, step: Step)
    requires Enabled(s, step)
    requires KnownNames(s) && s.tracker.Disjoint() && RunningIsCounted(s)
    requires WorkersConsistent(s) && QueueWorkerConsistent(s)
    ensures RunningIsCounted(Apply(s, step))
  {
    ReadyIsCountedKept(s, step);
    StrandedKept(s, step);
  }

  lemma QueuedIsUntrackedKept(s: State, step: Step)
    requires Enabled(s, step)
    requires KnownNames(s) && QueuedIsUntracked(s)
    requires WorkersConsistent(s) && QueueWorkerConsistent(s)
    ensures QueuedIsUntracked(Apply(s, step))
  {
  }

  lemma WorkerKept(s: State, step: Step, n: Name)
    requires Enabled(s, step)
    requires KnownNames(s) && s.tracker.Disjoint() && RunningIsCounted(s) && QueuedIsUntracked(s)
    requires WorkersConsistent(s) && QueueWorkerConsistent(s)
    requires n in Apply(s, step).workers
    ensures WorkerConsistent(Apply(s, step), n)
  {
    if IsWorkerStep(step) {
      WorkerKeptByWorker(s, step, n);
    } else {
      assert WorkerConsistent(s, n);
    }
  }

  predicate IsWorkerStep(step: Step) {
    || step.Prepare? || step.PatchStart? || step.TrackStart? || step.FinishRun? || step.PatchEnd? || step.Untrack?
  }

  lemma WorkerKeptByWorker(s: State, step: Step, n: Name)
    requires Enabled(s, step) && IsWorkerStep(step)
    requires KnownNames(s) && s.tracker.Disjoint() && RunningIsCounted(s)
    requires WorkersConsistent(s)
    requires n in Apply(s, step).workers
    ensures WorkerConsistent(Apply(s, step), n)
  {
    if n in s.workers {
      assert WorkerConsistent(s, n);
    }
  }

  lemma WorkersConsistentKept(s: State, step: Step)
    requires Enabled(s, step)
    requires KnownNames(s) && s.tracker.Disjoint() && RunningIsCounted(s) && QueuedIsUntracked(s)
    requires WorkersConsistent(s) && QueueWorkerConsistent(s)
    ensures WorkersConsistent(Apply(s, step))
  {
    forall n | n in Apply(s, step).workers
      ensures WorkerConsistent(Apply(s, step), n)
    {
      WorkerKept(s, step, n);
    }
  }

  /** Only the dequeue patch makes a backup running. */
  lemma OnlyDequeueStarts(s: State, step: Step, n: Name)
    requires Enabled(s, step)
    requires WorkersConsistent(s) && QueueWorkerConsistent(s)
    requires IsRunning(Apply(s, step).api, n)
    ensures (IsRunning(s.api, n) && Apply(s, step).api[n].namespaces == s.api[n].namespaces)
            || (step.PatchDequeue? && step.ok && n == s.queue.name)
  {
    if n in s.workers {
      assert WorkerConsistent(s, n);
    }
    if step.PatchStart? || step.PatchEnd? {
      assert WorkerConsistent(s, step.n);
    }
  }

  lemma RunningDisjointKept(s: State, step: Step)
    requires Enabled(s, step)
    requires WellPositioned(s.api) && RunningDisjoint(s.api)
    requires WorkersConsistent(s) && QueueWorkerConsistent(s)
    ensures RunningDisjoint(Apply(s, step).api)
  {
    var api' := Apply(s, step).api;
    forall m, n | IsRunning(api', m) && IsRunning(api', n) && m != n
      ensures !Overlap(api'[m], api'[n])
    {
      OnlyDequeueStarts(s, step, m);
      OnlyDequeueStarts(s, step, n);
      if step.PatchDequeue? && step.ok && (m == s.queue.name || n == s.queue.name) {
        DequeuedSharesNothing(s, if m == s.queue.name then n else m);
      }
    }
  }

  /** The backup about to be dequeued shares no namespace with one that runs, nor with one queued before it. */
  lemma DequeuedSharesNothing(s: State, m: Name)
    requires s.queue.Recorded? && QueueWorkerConsistent(s)
    requires s.queue.name in s.api && m in s.api
    requires IsRunning(s.api, m) || Before(s.api, m, s.queue.name)
    ensures !Overlap(s.api[m], s.api[s.queue.name])
  {
    var snap, n := s.queue.snap, s.queue.name;
    assert IsQueued(s.api, n) && snap[n] == s.api[n];
    assert m in snap && snap[m].namespaces == s.api[m].namespaces;
    assert !Blocks(snap, m, n);
  }

  lemma CoversKept(s: State, step: Step, snap: Api)
    requires Enabled(s, step) && WorkersConsistent(s)
    requires Covers(snap, s.api) && snap.Keys <= s.created && s.api.Keys <= s.created
    requires !step.PatchEnqueue? && !step.PatchDequeue? && !step.PatchPosition?
    ensures Covers(snap, Apply(s, step).api)
  {
    var api' := Apply(s, step).api;
    if step.PatchStart? || step.PatchEnd? {
      assert WorkerConsistent(s, step.n);
    }
    forall n | n in api' && (IsQueued(api', n) || IsRunning(api', n))
      ensures n in s.api && api'[n].namespaces == s.api[n].namespaces
      ensures IsQueued(api', n) ==> api'[n] == s.api[n]
      ensures IsRunning(api', n) ==> IsRunning(s.api, n)
    {
    }
    forall n | IsQueued(snap, n) && n in api'
      ensures IsQueued(api', n)
    {
      assert n in s.api && IsQueued(s.api, n);
    }
  }

  lemma RenumberingKept(s: State, step: Step)
    requires Enabled(s, step) && KnownNames(s) && WorkersConsistent(s)
    requires QueuedIsUntracked(s) && RunningIsCounted(s)
    requires s.queue.Renumbering? && QueueWorkerConsistent(s)
    ensures QueueWorkerConsistent(Apply(s, step))
  {
    var api, api', order, next := s.api, Apply(s, step).api, s.queue.order, s.queue.next;
    if step.PatchStart? || step.PatchEnd? {
      assert WorkerConsistent(s, step.n);
    }
    if step.PatchPosition? {
      if step.ok {
        PositionPatched(api, order, next);
      }
    } else {
      forall n
        ensures IsQueued(api', n) ==> IsQueued(api, n) && api'[n] == api[n]
        ensures n in order && n in api' ==> n in api && api'[n] == api[n]
      {
        if n in order && n in api {
          assert IsQueued(api, n);
        }
      }
      StillRenumbering(api, api', order, next);
    }
  }

  lemma PositionPatched(api: Api, order: seq<Name>, next: nat)
    requires next < |order| && Distinct(order) && RenumberingConsistent(api, order, next)
    requires order[next] in api
    ensures RenumberingConsistent(SetPosition(api, order[next], next + 1), order, next + 1)
  {
    var api' := SetPosition(api, order[next], next + 1);
    assert order[next] in order && IsQueued(api, order[next]);
    forall i | 0 <= i < |order| && order[i] in api
      ensures Position(api', order[i]) == if i == next then next + 1 else Position(api, order[i])
    {
    }
    forall i, j | 0 <= i < j < |order| && order[i] in api && order[j] in api
      ensures Position(api', order[i]) < Position(api', order[j])
    {
      assert Position(api, order[i]) < Position(api, order[j]);
    }
  }

  lemma StillRenumbering(api: Api, api': Api, order: seq<Name>, next: nat)
    requires next <= |order| && RenumberingConsistent(api, order, next)
    requires forall n | IsQueued(api', n) :: IsQueued(api, n)
    requires forall n | n in order && n in api' :: n in api && api'[n] == api[n]
    ensures RenumberingConsistent(api', order, next)
  {
    forall i | 0 <= i < |order| && order[i] in api'
      ensures order[i] in api && Position(api', order[i]) == Position(api, order[i])
    {
      assert order[i] in order;
    }
  }

  lemma StartRenumbering(s: State, order: seq<Name>)
    requires s.queue.Recorded? && QueueWorkerConsistent(s) && WellPositioned(s.api)
    requires s.queue.name in s.api && IsRemainingQueue(s.queue.snap, s.queue.name, order)
    ensures RenumberingConsistent(Dequeue(s.api, s.queue.name), order, 0)
  {
    var snap, n := s.queue.snap, s.queue.name;
    var api' := Dequeue(s.api, n);
    forall m | m in order && m in api'
      ensures IsQueued(api', m) && api'[m] == snap[m]
    {
      assert IsQueued(snap, m) && IsQueued(s.api, m);
    }
    forall i | 0 <= i < |order|
      ensures Position(snap, order[i]) >= i + 1
      ensures forall j | i < j < |order| :: Position(snap, order[j]) > Position(snap, order[i])
      ensures order[i] in order
    {
      SortedPositionsLeaveRoom(snap, n, order, i);
    }
  }

  lemma DequeueTargetKept(s: State, step: Step, n: Name, snap: Api)
    requires Enabled(s, step) && KnownNames(s) && QueuedIsUntracked(s) && WorkersConsistent(s)
    requires DequeueTarget(s, n, snap) && n in s.created && Covers(snap, s.api)
    requires !step.PatchEnqueue? && !step.PatchDequeue?
    ensures DequeueTarget(Apply(s, step), n, snap)
  {
    if step.PatchStart? || step.PatchEnd? {
      assert WorkerConsistent(s, step.n);
    }
  }

  lemma QueueWorkerKept(s: State, step: Step)
    requires Enabled(s, step)
    requires KnownNames(s) && WellPositioned(s.api) && RunningIsCounted(s) && QueuedIsUntracked(s)
    requires WorkersConsistent(s) && QueueWorkerConsistent(s)
    ensures QueueWorkerConsistent(Apply(s, step))
  {
    match s.queue
    case Renumbering(_, _) => RenumberingKept(s, step);
    case Enqueuing(_, _) => EnqueuingKept(s, step);
    case Idle =>
    case _ => DequeuingKept(s, step);
  }

  lemma EnqueuingKept(s: State, step: Step)
    requires Enabled(s, step) && s.queue.Enqueuing?
    requires KnownNames(s) && RunningIsCounted(s) && QueuedIsUntracked(s)
    requires WorkersConsistent(s) && QueueWorkerConsistent(s)
    ensures QueueWorkerConsistent(Apply(s, step))
  {
    if step.PatchStart? || step.PatchEnd? {
      assert WorkerConsistent(s, step.n);
    }
  }

  lemma DequeuingKept(s: State, step: Step)
    requires Enabled(s, step) && (s.queue.ListRead? || s.queue.SlotFree? || s.queue.Recorded?)
    requires KnownNames(s) && WellPositioned(s.api) && RunningIsCounted(s) && QueuedIsUntracked(s)
    requires WorkersConsistent(s) && QueueWorkerConsistent(s)
    ensures QueueWorkerConsistent(Apply(s, step))
  {
    var n, snap := s.queue.name, s.queue.snap;
    if step.PatchDequeue? {
      if step.ok {
        StartRenumbering(s, step.order);
      }
    } else {
      CoversKept(s, step, snap);
      DequeueTargetKept(s, step, n, snap);
    }
  }

  lemma StepKeepsInv(s: State, step: Step)
    requires Inv(s) && Enabled(s, step)
    ensures Inv(Apply(s, step))
  {
    KnownNamesKept(s, step);
    WellPositionedKept(s, step);
    assert step.TrackStart? ==> WorkerConsistent(s, step.n);
    BoundKeptByStep(s, step);
    RunningIsCountedKept(s, step);
    QueuedIsUntrackedKept(s, step);
    WorkersConsistentKept(s, step);
    RunningDisjointKept(s, step);
    QueueWorkerKept(s, step);
  }
}
