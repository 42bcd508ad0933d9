/**
 From the initial run over the polling of operations to the finalizer: does the end phase tell what happened?

 One backup, one reconcile at a time; every API call, upload and download may fail. The operations map is the
 operations controller's memory: the operations as last seen and the number of errors not yet reported.
 */
module BackupOutcome {
  import opened BackupPhases
  import opened Options
  import Operations

  type Operation = Operations.Operation
  type Answer = Operations.Answer

  datatype Memory = Memory(operations: seq<Operation>, errsSinceUpdate: nat)

  datatype State = State(
    phase: Phase,                    // the API server's
    ran: bool,                       // the initial run is over
    memory: Option<Memory>,
    stored: seq<Operation>,          // the operation list in object storage
    metadata: Option<Phase>,         // the phase in the uploaded backup metadata
    finalContents: bool,             // whether finalized contents were uploaded
    initialErrors: bool,             // history: the initial run logged an error
    operationFailed: bool,           // history: some operation has failed since
    forgotten: bool                  // history: errors left the memory before the phase showed them
  )

  /** What a poll is told, and what it makes of the operations. */
  datatype Poll = Poll(answers: seq<Answer>, now: int, timeout: int,
                       operations: seq<Operation>, errors: nat, running: bool)

  /** The poll's result is the one the poll loop computes from these operations. */
  ghost predicate IsPollOf(poll: Poll, before: seq<Operation>) {
    && |poll.answers| == |before|
    && poll.operations == Operations.PollAll(before, poll.answers, poll.now, poll.timeout)
    && poll.errors == |Operations.NewErrors(before, poll.operations)|
    && poll.running == Operations.AnyRunning(poll.operations)
  }

  /** Which calls of one operations reconcile succeed. */
  datatype PollEnv = PollEnv(metadataUploaded: bool, operationsUploaded: bool, patched: bool)

  /** How one reconcile of the finalizer goes. */
  datatype FinalizeEnv = FinalizeEnv(prepared: bool, metadataUploaded: bool, contentsUploaded: bool, patched: bool)

  datatype Step =
    | InitialRun(fatal: bool, errorsLogged: bool, started: seq<Operation>, poll: Poll, persisted: bool, patched: bool)
    | PollOperations(poll: Poll, env: PollEnv)
    | OperationsUnavailable(metadataUploaded: bool)
    | LocationUnavailable(patched: bool)
    | DownloadRequest(uploaded: bool)
    | Finalize(fin: FinalizeEnv)

  ghost predicate Init(s: State) {
    s == State(InProgress, false, None, [], None, false, false, false, false)
  }

  predicate IsWaiting(p: Phase) {
    p.WaitingForPluginOperations? || p.WaitingForPluginOperationsPartiallyFailed?
  }

  predicate IsFinalizing(p: Phase) {
    p.Finalizing? || p.FinalizingPartiallyFailed?
  }

  predicate IsPartiallyFailedVariant(p: Phase) {
    p.WaitingForPluginOperationsPartiallyFailed? || p.FinalizingPartiallyFailed? || p.PartiallyFailed?
  }

  /** The phase chosen at the end of the initial run. */
  function PhaseAfterRun(fatal: bool, errors: bool, inProgress: bool): Phase {
    if fatal then Phase.Failed
    else if errors then
      if inProgress then WaitingForPluginOperationsPartiallyFailed else FinalizingPartiallyFailed
    else
      if inProgress then WaitingForPluginOperations else Finalizing
  }

  /** The phase a poll moves to: errors first, then, once nothing runs, on to finalizing. */
  function PhaseAfterPoll(p: Phase, errors: bool, inProgress: bool): Phase {
    var marked := if errors then WaitingForPluginOperationsPartiallyFailed else p;
    if inProgress then marked
    else if marked.WaitingForPluginOperations? then Finalizing else FinalizingPartiallyFailed
  }

  function FinalPhase(p: Phase): Phase {
    if p.Finalizing? then Phase.Completed else PartiallyFailed
  }

  /** The operations a reconcile works on: those in memory, or, if there are none, those in object storage. */
  function Loaded(s: State): Memory {
    if s.memory.Some? && s.memory.value.operations != [] then s.memory.value else Memory(s.stored, 0)
  }

  predicate AllNew(operations: seq<Operation>) {
    forall i | 0 <= i < |operations| :: operations[i].phase.New?
  }

  predicate Enabled(s: State, step: Step) {
    match step
    case InitialRun(_, _, _, _, _, _) => s.phase.InProgress? && !s.ran
    case PollOperations(_, _) => IsWaiting(s.phase)
    case OperationsUnavailable(_) => IsWaiting(s.phase) && (s.memory.Some? ==> s.memory.value.operations == [])
    case LocationUnavailable(_) => IsWaiting(s.phase)
    case DownloadRequest(_) => s.memory.Some?
    case Finalize(_) => IsFinalizing(s.phase)
  }

  /** The polls in a step are polls of the operations at hand. */
  ghost predicate PollsTruly(s: State, step: Step) {
    match step
    case InitialRun(_, _, started, poll, _, _) => AllNew(started) && IsPollOf(poll, started)
    case PollOperations(poll, _) => IsPollOf(poll, Loaded(s).operations)
    case _ => true
  }

  function Apply(s: State, step: Step): State
    requires Enabled(s, step)
  {
    match step
    case InitialRun(fatal, errorsLogged, _, poll, persisted, patched) =>
      var errors := errorsLogged || poll.errors > 0;
      var next := if !persisted then Phase.Failed else PhaseAfterRun(fatal, errors, poll.running);
      s.(phase := if patched then next else s.phase,
         ran := true,
         stored := poll.operations,
         metadata := if persisted then Some(next) else s.metadata,
         initialErrors := errors || fatal || !persisted)
    case PollOperations(poll, env) => ApplyPoll(s, poll, env)
    case OperationsUnavailable(metadataUploaded) =>
      // The error is written with an empty list, and an empty list is what stays in memory.
      if metadataUploaded then s.(metadata := Some(s.phase), memory := Some(Memory([], 0))) else s
    case LocationUnavailable(patched) =>
      if patched then s.(phase := PartiallyFailed, memory := None) else s
    case DownloadRequest(uploaded) =>
      if !uploaded then s
      else Forget(s, s.memory.value.errsSinceUpdate > 0).(
        stored := if s.memory.value.operations == [] then s.stored else s.memory.value.operations,
        memory := Some(s.memory.value.(errsSinceUpdate := 0)))
    case Finalize(fin) => ApplyFinalize(s, fin)
  }

  /** Unreported errors are cleared; that matters while the phase does not show a failure. */
  function Forget(s: State, errors: bool): State {
    s.(forgotten := s.forgotten || (errors && s.phase.WaitingForPluginOperations?))
  }

  function ApplyPoll(s: State, poll: Poll, env: PollEnv): State {
    var pending := Loaded(s).errsSinceUpdate + poll.errors;
    Reported(s.(operationFailed := s.operationFailed || poll.errors > 0), poll.operations, pending,
      PhaseAfterPoll(s.phase, pending > 0, poll.running), env)
  }

  /** Metadata, operations and status are written in this order, as far as it goes. */
  function Reported(s: State, operations: seq<Operation>, pending: nat, next: Phase, env: PollEnv): State {
    var kept := Some(Memory(operations, pending));
    if pending == 0 && !IsFinalizing(next) then
      s.(memory := kept)
    else if !env.metadataUploaded then
      s.(memory := kept)
    else if !env.operationsUploaded then
      s.(metadata := Some(next), memory := kept)
    else if !env.patched then
      // The errors were cleared with the upload, but the phase that tells of them was not written.
      Forget(s, pending > 0).(metadata := Some(next), stored := operations, memory := Some(Memory(operations, 0)))
    else
      s.(phase := next, metadata := Some(next), stored := operations,
         memory := if IsFinalizing(next) then None else Some(Memory(operations, 0)))
  }

  function ApplyFinalize(s: State, fin: FinalizeEnv): State
    requires IsFinalizing(s.phase)
  {
    if !fin.prepared || !fin.metadataUploaded then s
    else
      var told := s.(metadata := Some(FinalPhase(s.phase)));
      if s.stored != [] && !fin.contentsUploaded then told
      else
        told.(finalContents := s.stored != [],
              phase := if fin.patched then FinalPhase(s.phase) else s.phase)
  }

  // ----- The invariant -----

  ghost predicate Inv(s: State) {
    && (s.phase.InProgress? || s.phase.Finalizing? || s.phase.WaitingForPluginOperations? || s.phase.Completed? ||
        IsPartiallyFailedVariant(s.phase) || s.phase.Failed?)
    && (s.phase.InProgress? ==> !s.operationFailed && !s.forgotten && s.memory == None)
    && (s.phase.InProgress? && !s.ran ==> !s.initialErrors)
    // Whatever went wrong is still in memory, or has been forgotten.
    && (s.phase.WaitingForPluginOperations? ==>
          && !s.initialErrors
          && (s.operationFailed <==> s.forgotten || PendingErrors(s) > 0)
          && (s.memory.Some? && s.memory.value.operations == [] ==> s.memory.value.errsSinceUpdate == 0))
    && (s.phase.Finalizing? || s.phase.Completed? ==> !s.initialErrors && (s.operationFailed <==> s.forgotten))
    && (IsFinalizing(s.phase) ==> s.memory.None? || s.memory.value.errsSinceUpdate == 0)
    && (s.forgotten ==> s.operationFailed)
  }

  function PendingErrors(s: State): nat {
    if s.memory.Some? then s.memory.value.errsSinceUpdate else 0
  }

  lemma InitInv(s: State)
    requires Init(s)
    ensures Inv(s)
  {
  }

  lemma PollKeepsInv(s: State, poll: Poll, env: PollEnv)
    requires Inv(s) && IsWaiting(s.phase) && (poll.operations == [] ==> poll.errors == 0)
    requires Loaded(s).operations == [] <==> poll.operations == []
    ensures Inv(ApplyPoll(s, poll, env))
  {
  }

  lemma StepKeepsInv(s: State, step: Step, s': State)
    requires Inv(s) && Next(s, step, s') && PollsTruly(s, step)
    ensures Inv(s')
  {
    if step.PollOperations? {
      PollShowsFailures(step.poll, Loaded(s).operations);
      PollKeepsInv(s, step.poll, step.env);
    }
  }

  /** Where nothing has shown yet, the history flag says exactly whether an operation is Failed. */
  ghost predicate FailuresAreSeen(s: State) {
    !s.phase.InProgress? && !IsPartiallyFailedVariant(s.phase) && !s.phase.Failed? ==>
      (s.operationFailed <==> HasFailed(Loaded(s).operations))
  }

  ghost predicate HasFailed(operations: seq<Operation>) {
    exists i :: 0 <= i < |operations| && operations[i].phase.Failed?
  }

  lemma PollShowsFailures(poll: Poll, before: seq<Operation>)
    requires IsPollOf(poll, before)
    ensures HasFailed(poll.operations) <==> HasFailed(before) || poll.errors > 0
    ensures before == [] <==> poll.operations == []
  {
    Operations.NoErrorsMeansNoNewFailure(before, poll.operations);
    if i :| 0 <= i < |before| && before[i].phase.Failed? {
      assert poll.operations[i].phase.Failed?;
    }
  }

  lemma PollKeepsFailuresSeen(s: State, poll: Poll, env: PollEnv)
    requires Inv(s) && FailuresAreSeen(s) && IsWaiting(s.phase)
    requires HasFailed(poll.operations) <==> HasFailed(Loaded(s).operations) || poll.errors > 0
    requires Loaded(s).operations == [] <==> poll.operations == []
    ensures FailuresAreSeen(ApplyPoll(s, poll, env))
  {
  }

  lemma StepKeepsFailuresSeen(s: State, step: Step, s': State)
    requires Inv(s) && FailuresAreSeen(s) && Next(s, step, s') && PollsTruly(s, step)
    ensures FailuresAreSeen(s')
  {
    if step.PollOperations? {
      PollShowsFailures(step.poll, Loaded(s).operations);
      PollKeepsFailuresSeen(s, step.poll, step.env);
    } else if step.InitialRun? {
      PollShowsFailures(step.poll, step.started);
    }
  }

  // ----- Whole runs -----

  ghost predicate IsRun(states: seq<State>, steps: seq<Step>) {
    && |states| == |steps| + 1 && Init(states[0])
    && (forall i | 0 <= i < |steps| :: Next(states[i], steps[i], states[i + 1]))
    && (forall i {:trigger PollsTruly(states[i], steps[i])} | 0 <= i < |steps| :: PollsTruly(states[i], steps[i]))
  }

  ghost predicate Next(s: State, step: Step, s': State) {
    Enabled(s, step) && s' == Apply(s, step)
  }

  lemma {:induction false} RunKeepsInv(states: seq<State>, steps: seq<Step>, i: nat)
    requires IsRun(states, steps) && i < |states|
    ensures Inv(states[i]) && FailuresAreSeen(states[i])
  {
    if i == 0 {
      InitInv(states[0]);
    } else {
      RunKeepsInv(states, steps, i - 1);
      assert PollsTruly(states[i - 1], steps[i - 1]);
      StepKeepsInv(states[i - 1], steps[i - 1], states[i]);
      StepKeepsFailuresSeen(states[i - 1], steps[i - 1], states[i]);
    }
  }

  /** A completed backup logged no error in its initial run, and had a failed operation only if that was forgotten. */
  lemma CompletedMeansSuccess(states: seq<State>, steps: seq<Step>, i: nat)
    requires IsRun(states, steps) && i < |states| && states[i].phase.Completed?
    ensures !states[i].initialErrors
    ensures states[i].operationFailed <==> states[i].forgotten
  {
    RunKeepsInv(states, steps, i);
  }

  /**
   The two ways to forget: a status patch that fails after the upload that cleared the errors, and a download
   request that uploads the operations while errors are waiting to be reported.
   */
  ghost predicate ForgetsErrors(s: State, step: Step) {
    && s.phase.WaitingForPluginOperations?
    && match step
       case PollOperations(poll, env) =>
         && env.metadataUploaded && env.operationsUploaded && !env.patched
         && Loaded(s).errsSinceUpdate + poll.errors > 0
       case DownloadRequest(uploaded) => uploaded && PendingErrors(s) > 0
       case _ => false
  }

  lemma PollEffects(s: State, poll: Poll, env: PollEnv)
    requires IsWaiting(s.phase)
    ensures var t := ApplyPoll(s, poll, env);
            && (t.forgotten <==> s.forgotten || ForgetsErrors(s, PollOperations(poll, env)))
            && (IsPartiallyFailedVariant(s.phase) ==> IsPartiallyFailedVariant(t.phase))
            && (IsOver(t.phase) ==> t.memory.None?)
  {
  }

  lemma StepForgets(s: State, step: Step)
    requires Enabled(s, step)
    ensures Apply(s, step).forgotten <==> s.forgotten || ForgetsErrors(s, step)
  {
    if step.PollOperations? {
      PollEffects(s, step.poll, step.env);
    }
  }

  lemma StepKeepsPartialFailure(s: State, step: Step)
    requires Enabled(s, step) && IsPartiallyFailedVariant(s.phase)
    ensures IsPartiallyFailedVariant(Apply(s, step).phase)
  {
    if step.PollOperations? {
      PollEffects(s, step.poll, step.env);
    }
  }

  predicate IsOver(p: Phase) {
    IsFinalizing(p) || p.IsTerminal() || p.InProgress?
  }

  lemma StepClearsMemory(s: State, step: Step)
    requires Enabled(s, step) && IsOver(Apply(s, step).phase)
    requires !IsWaiting(s.phase) ==> s.memory.None?
    ensures Apply(s, step).memory.None?
  {
    if step.PollOperations? {
      PollEffects(s, step.poll, step.env);
    }
  }

  ghost predicate ForgetsAt(states: seq<State>, steps: seq<Step>, j: int) {
    0 <= j < |steps| && j < |states| && ForgetsErrors(states[j], steps[j])
  }

  lemma ForgottenMeansForgetting(states: seq<State>, steps: seq<Step>, i: nat)
    requires IsRun(states, steps) && i < |states|
    ensures states[i].forgotten <==> exists j :: 0 <= j < i && ForgetsAt(states, steps, j)
  {
    forall j: nat | j < |steps|
      ensures states[j + 1].forgotten <==> states[j].forgotten || ForgetsAt(states, steps, j)
    {
      LastStepForgets(states, steps, j);
    }
    ForgottenAddsUp(states, steps, i);
  }

  lemma {:induction false} ForgottenAddsUp(states: seq<State>, steps: seq<Step>, i: nat)
    requires |states| == |steps| + 1 && i < |states| && !states[0].forgotten
    requires forall j: nat | j < |steps| ::
               states[j + 1].forgotten <==> states[j].forgotten || ForgetsAt(states, steps, j)
    ensures states[i].forgotten <==> exists j :: 0 <= j < i && ForgetsAt(states, steps, j)
  {
    if i > 0 {
      ForgottenAddsUp(states, steps, i - 1);
      assert states[i - 1 + 1].forgotten <==> states[i - 1].forgotten || ForgetsAt(states, steps, i - 1);
    }
  }

  lemma LastStepForgets(states: seq<State>, steps: seq<Step>, j: nat)
    requires IsRun(states, steps) && j < |steps|
    ensures states[j + 1].forgotten <==> states[j].forgotten || ForgetsAt(states, steps, j)
  {
    assert Next(states[j], steps[j], states[j + 1]);
    StepForgets(states[j], steps[j]);
  }

  /** So a completed backup had a failed operation if and only if its errors were forgotten on the way. */
  lemma CompletedHidesFailureExactlyIfForgotten(states: seq<State>, steps: seq<Step>, i: nat)
    requires IsRun(states, steps) && i < |states| && states[i].phase.Completed?
    ensures HasFailed(states[i].stored) <==> exists j :: 0 <= j < i && ForgetsAt(states, steps, j)
  {
    RunKeepsInv(states, steps, i);
    RunKeepsMemoryEmpty(states, steps, i);
    CompletedMeansSuccess(states, steps, i);
    ForgottenMeansForgetting(states, steps, i);
  }

  /** Once a partially failed variant is entered, the end is PartiallyFailed. */
  lemma {:induction false} PartialFailureSticks(states: seq<State>, steps: seq<Step>, i: nat, j: nat)
    requires IsRun(states, steps) && i <= j < |states|
    requires IsPartiallyFailedVariant(states[i].phase)
    ensures IsPartiallyFailedVariant(states[j].phase)
    ensures states[j].phase.IsTerminal() ==> states[j].phase.PartiallyFailed?
    decreases j
  {
    if i < j {
      PartialFailureSticks(states, steps, i, j - 1);
      assert Next(states[j - 1], steps[j - 1], states[j]);
      StepKeepsPartialFailure(states[j - 1], steps[j - 1]);
    }
  }

  /** The finalizer shows an end phase only after uploading the metadata that says so and any finalized contents. */
  lemma TerminalOnlyAfterUploads(states: seq<State>, steps: seq<Step>, i: nat)
    requires IsRun(states, steps) && i < |steps| && steps[i].Finalize?
    ensures states[i + 1].phase != states[i].phase ==>
              && states[i + 1].phase == FinalPhase(states[i].phase)
              && states[i + 1].metadata == Some(states[i + 1].phase)
              && (states[i + 1].stored != [] ==> states[i + 1].finalContents)
    ensures !(steps[i].fin.prepared && steps[i].fin.metadataUploaded && steps[i].fin.patched) ==>
              states[i + 1].phase == states[i].phase
  {
    assert Next(states[i], steps[i], states[i + 1]);
  }

  /** A completed backup was finalized: its metadata says Completed and its contents are final. */
  lemma CompletedIsUploaded(states: seq<State>, steps: seq<Step>, i: nat)
    requires IsRun(states, steps) && i < |states| && states[i].phase.Completed?
    ensures states[i].metadata == Some(Phase.Completed)
    ensures states[i].stored != [] ==> states[i].finalContents
  {
    assert i > 0;
    if IsOver(states[i - 1].phase) {
      RunKeepsMemoryEmpty(states, steps, i - 1);
    }
    assert Next(states[i - 1], steps[i - 1], states[i]);
    StepIntoCompleted(states[i - 1], steps[i - 1]);
  }

  lemma StepIntoCompleted(s: State, step: Step)
    requires Enabled(s, step) && (IsOver(s.phase) ==> s.memory.None?)
    requires Apply(s, step).phase.Completed?
    ensures step.Finalize?
    ensures Apply(s, step).metadata == Some(Phase.Completed)
    ensures Apply(s, step).stored != [] ==> Apply(s, step).finalContents
  {
    match step
    case PollOperations(poll, env) => PollNeverCompletes(s, poll, env);
    case _ =>
  }

  lemma PollNeverCompletes(s: State, poll: Poll, env: PollEnv)
    requires IsWaiting(s.phase)
    ensures !ApplyPoll(s, poll, env).phase.Completed?
  {
  }

  /** Nothing is remembered of a backup whose operations are over. */
  lemma {:induction false} RunKeepsMemoryEmpty(states: seq<State>, steps: seq<Step>, i: nat)
    requires IsRun(states, steps) && i < |states|
    requires IsOver(states[i].phase)
    ensures states[i].memory.None?
  {
    if i > 0 {
      RunKeepsInv(states, steps, i - 1);
      if !IsWaiting(states[i - 1].phase) {
        RunKeepsMemoryEmpty(states, steps, i - 1);
      }
      StepClearsMemory(states[i - 1], steps[i - 1]);
    }
  }

  // ----- Waiting lasts exactly as long as something runs -----

  /** Past the waiting phases, unless by way of PartiallyFailed, nothing in the stored list runs any more. */
  ghost predicate NothingLeftRunning(s: State) {
    IsFinalizing(s.phase) || s.phase.Completed? ==> !Operations.AnyRunning(s.stored)
  }

  lemma StepKeepsNothingRunning(s: State, step: Step)
    requires Enabled(s, step) && PollsTruly(s, step)
    requires NothingLeftRunning(s) && (IsOver(s.phase) ==> s.memory.None?)
    ensures NothingLeftRunning(Apply(s, step))
  {
    if step.PollOperations? {
      PollDecides(s, step.poll, step.env);
    }
  }

  /**
   Where a poll leaves a waiting backup. With every call successful, errors turn the phase, and the waiting is over
   exactly if nothing runs any more; a failed call leaves the phase as it was.
   */
  lemma PollDecides(s: State, poll: Poll, env: PollEnv)
    requires IsWaiting(s.phase) && IsPollOf(poll, Loaded(s).operations)
    ensures var t := ApplyPoll(s, poll, env);
            && (env.metadataUploaded && env.operationsUploaded && env.patched ==>
                  && (IsFinalizing(t.phase) <==> !Operations.AnyRunning(poll.operations))
                  && (IsWaiting(t.phase) <==> Operations.AnyRunning(poll.operations))
                  && (IsPartiallyFailedVariant(t.phase) <==>
                        IsPartiallyFailedVariant(s.phase) || Unreported(s) + poll.errors > 0))
            && (!(env.metadataUploaded && env.operationsUploaded && env.patched) ==> t.phase == s.phase)
            && (t.phase != s.phase ==> t.stored == poll.operations && t.metadata == Some(t.phase))
            && (IsFinalizing(t.phase) || IsWaiting(t.phase))
  {
  }

  /** The errors remembered along with operations, not yet shown by the phase. */
  function Unreported(s: State): nat {
    if s.memory.Some? && s.memory.value.operations != [] then s.memory.value.errsSinceUpdate else 0
  }

  /** A backup is finalizing or completed only when none of its operations runs. */
  lemma {:induction false} FinalizingMeansNothingRuns(states: seq<State>, steps: seq<Step>, i: nat)
    requires IsRun(states, steps) && i < |states|
    ensures IsFinalizing(states[i].phase) || states[i].phase.Completed? ==> !Operations.AnyRunning(states[i].stored)
  {
    if i > 0 {
      FinalizingMeansNothingRuns(states, steps, i - 1);
      if IsOver(states[i - 1].phase) {
        RunKeepsMemoryEmpty(states, steps, i - 1);
      }
      assert Next(states[i - 1], steps[i - 1], states[i]) && PollsTruly(states[i - 1], steps[i - 1]);
      StepKeepsNothingRunning(states[i - 1], steps[i - 1]);
    }
  }

  /** Where the initial run leaves a backup whose upload and status patch succeed. */
  lemma InitialRunDecides(s: State, fatal: bool, errorsLogged: bool, started: seq<Operation>, poll: Poll)
    requires s.phase.InProgress? && !s.ran && IsPollOf(poll, started)
    ensures var t := Apply(s, InitialRun(fatal, errorsLogged, started, poll, true, true));
            && (t.phase.Failed? <==> fatal)
            && (IsFinalizing(t.phase) <==> !fatal && !Operations.AnyRunning(poll.operations))
            && (IsWaiting(t.phase) <==> !fatal && Operations.AnyRunning(poll.operations))
            && (IsPartiallyFailedVariant(t.phase) <==> !fatal && (errorsLogged || poll.errors > 0))
            && t.stored == poll.operations && t.metadata == Some(t.phase)
  {
  }

  /** An upload that fails in the initial run makes the backup Failed, a status patch that fails leaves it InProgress. */
  lemma InitialRunFails(s: State, fatal: bool, errorsLogged: bool, started: seq<Operation>, poll: Poll, persisted: bool,
      patched: bool)
    requires s.phase.InProgress? && !s.ran
    ensures var t := Apply(s, InitialRun(fatal, errorsLogged, started, poll, persisted, patched));
            && (!persisted && patched ==> t.phase.Failed?) && (!patched ==> t.phase.InProgress?)
  {
  }

  // ----- Completed operations -----

  /** A poll of this step was told that operation `k` has completed without an error. */
  ghost predicate TellsCompletion(step: Step, k: nat) {
    match step
    case InitialRun(_, _, _, poll, _, _) => PollTellsCompletion(poll, k)
    case PollOperations(poll, _) => PollTellsCompletion(poll, k)
    case _ => false
  }

  predicate PollTellsCompletion(poll: Poll, k: nat) {
    k < |poll.answers| && poll.answers[k].Progress? && poll.answers[k].completed && poll.answers[k].err == ""
  }

  ghost predicate ToldBefore(steps: seq<Step>, i: nat, k: nat) {
    exists j :: 0 <= j < i && j < |steps| && TellsCompletion(steps[j], k)
  }

  ghost predicate CompletionsTold(steps: seq<Step>, i: nat, operations: seq<Operation>) {
    forall k {:trigger ToldBefore(steps, i, k)} | 0 <= k < |operations| && operations[k].phase.Completed? ::
      ToldBefore(steps, i, k)
  }

  lemma PollCompletes(poll: Poll, before: seq<Operation>, k: nat)
    requires IsPollOf(poll, before) && k < |poll.operations| && poll.operations[k].phase.Completed?
    ensures |before| == |poll.operations| && (before[k].phase.Completed? || PollTellsCompletion(poll, k))
  {
    Operations.PolledHasOutcome(before[k], poll.answers[k], poll.now, poll.timeout);
  }

  lemma StillTold(steps: seq<Step>, i: nat, operations: seq<Operation>)
    requires CompletionsTold(steps, i, operations)
    ensures CompletionsTold(steps, i + 1, operations)
  {
    forall k | 0 <= k < |operations| && operations[k].phase.Completed?
      ensures ToldBefore(steps, i + 1, k)
    {
      assert ToldBefore(steps, i, k);
    }
  }

  lemma PollTells(steps: seq<Step>, i: nat, poll: Poll, before: seq<Operation>)
    requires i < |steps| && IsPollOf(poll, before) && CompletionsTold(steps, i, before)
    requires (steps[i].InitialRun? && steps[i].poll == poll) || (steps[i].PollOperations? && steps[i].poll == poll)
    ensures CompletionsTold(steps, i + 1, poll.operations)
  {
    forall k | 0 <= k < |poll.operations| && poll.operations[k].phase.Completed?
      ensures ToldBefore(steps, i + 1, k)
    {
      PollCompletes(poll, before, k);
      if PollTellsCompletion(poll, k) {
        assert TellsCompletion(steps[i], k);
      } else {
        assert ToldBefore(steps, i, k);
      }
    }
  }

  /** An operation is stored or remembered as Completed only if a poll was told so, and told of no error. */
  lemma {:induction false} CompletedOnlyWhenTold(states: seq<State>, steps: seq<Step>, i: nat)
    requires IsRun(states, steps) && i < |states|
    ensures CompletionsTold(steps, i, states[i].stored)
    ensures states[i].memory.Some? ==> CompletionsTold(steps, i, states[i].memory.value.operations)
  {
    if i > 0 {
      CompletedOnlyWhenTold(states, steps, i - 1);
      var s, step := states[i - 1], steps[i - 1];
      assert Next(s, step, states[i]) && PollsTruly(s, step);
      StillTold(steps, i - 1, s.stored);
      if s.memory.Some? {
        StillTold(steps, i - 1, s.memory.value.operations);
      }
      if step.InitialRun? {
        PollTells(steps, i - 1, step.poll, step.started);
      } else if step.PollOperations? {
        PollTells(steps, i - 1, step.poll, Loaded(s).operations);
        PollKeepsLists(s, step.poll, step.env);
      }
    }
  }

  lemma PollKeepsLists(s: State, poll: Poll, env: PollEnv)
    ensures var t := ApplyPoll(s, poll, env);
            && (t.stored == s.stored || t.stored == poll.operations)
            && (t.memory.Some? ==> t.memory.value.operations == poll.operations)
  {
  }

  // ----- Both ways of forgetting do end in Completed -----

  predicate StatusPatchSucceeds(step: Step) {
    match step
    case InitialRun(_, _, _, _, _, patched) => patched
    case PollOperations(_, env) => env.patched
    case LocationUnavailable(patched) => patched
    case Finalize(fin) => fin.patched
    case _ => true
  }

  /** Reached by a run; with `patched`, by one in which every status patch succeeds. */
  ghost predicate Reachable(s: State, patched: bool) {
    exists states: seq<State>, steps: seq<Step> ::
      && IsRun(states, steps) && states[|steps|] == s
      && (patched ==> forall i | 0 <= i < |steps| :: StatusPatchSucceeds(steps[i]))
  }

  lemma Reach(s: State, patched: bool, step: Step)
    requires Reachable(s, patched) && Enabled(s, step) && PollsTruly(s, step)
    requires patched ==> StatusPatchSucceeds(step)
    ensures Reachable(Apply(s, step), patched)
  {
    var states: seq<State>, steps: seq<Step> :|
      && IsRun(states, steps) && states[|steps|] == s
      && (patched ==> forall i | 0 <= i < |steps| :: StatusPatchSucceeds(steps[i]));
    var states', steps' := states + [Apply(s, step)], steps + [step];
    assert IsRun(states', steps') && states'[|steps'|] == Apply(s, step);
  }

  const RUNNING := Operations.Operation(0, Operations.New, "", 0, 0, "", "", None, None)
  const STILL_RUNNING := Operations.Progress(false, "", 0, 0, "", "", 0, 0)
  const GONE_WRONG := Operations.NoProgress("plugin error")

  const FAILED_OPERATION := Operations.Failing(RUNNING, "plugin error")
  const QUIET_POLL := Poll([STILL_RUNNING], 0, 10, [RUNNING], 0, true)
  const FAILING_POLL := Poll([GONE_WRONG], 0, 10, [FAILED_OPERATION], 1, false)
  const LAST_POLL := Poll([STILL_RUNNING], 0, 10, [FAILED_OPERATION], 0, false)

  lemma ExamplePolls()
    ensures IsPollOf(QUIET_POLL, [RUNNING])
    ensures IsPollOf(FAILING_POLL, [RUNNING])
    ensures IsPollOf(LAST_POLL, [FAILED_OPERATION])
  {
    assert [RUNNING][..0] == [] && [FAILED_OPERATION][..0] == [];
    assert Operations.PollAll([RUNNING], [STILL_RUNNING], 0, 10) == [RUNNING];
    assert Operations.PollAll([RUNNING], [GONE_WRONG], 0, 10) == [FAILED_OPERATION];
    assert Operations.PollAll([FAILED_OPERATION], [STILL_RUNNING], 0, 10) == [FAILED_OPERATION];
    assert ![RUNNING][0].phase.IsTerminal();
  }

  /** A backup waiting for one operation. */
  lemma WaitingExample(patched: bool) returns (s: State)
    ensures Reachable(s, patched) && s.phase.WaitingForPluginOperations? && s.memory == None && s.stored == [RUNNING]
  {
    var start := State(InProgress, false, None, [], None, false, false, false, false);
    assert IsRun([start], []) && [start][0] == start;
    var step := InitialRun(false, false, [RUNNING], QUIET_POLL, true, true);
    ExamplePolls();
    s := Apply(start, step);
    Reach(start, patched, step);
  }

  /** The last poll: everything is terminal and no error is left to report. */
  lemma FinishForgetfully(s: State, patched: bool)
    requires Reachable(s, patched) && s.phase.WaitingForPluginOperations?
    requires s.memory == Some(Memory([FAILED_OPERATION], 0))
    ensures exists t :: Reachable(t, patched) && t.phase.Completed? && HasFailed(t.stored)
  {
    ExamplePolls();
    var step := PollOperations(LAST_POLL, PollEnv(true, true, true));
    Reach(s, patched, step);
    var finalizing := Apply(s, step);
    var fin := Finalize(FinalizeEnv(true, true, true, true));
    Reach(finalizing, patched, fin);
    var t := Apply(finalizing, fin);
    assert t.stored[0].phase.Failed?;
  }

  /** A status patch failing after the upload hides the failed operation for good. */
  lemma FailedPatchHidesFailure()
    ensures exists t :: Reachable(t, false) && t.phase.Completed? && HasFailed(t.stored)
  {
    var s := WaitingExample(false);
    ExamplePolls();
    var step := PollOperations(FAILING_POLL, PollEnv(true, true, false));
    Reach(s, false, step);
    FinishForgetfully(Apply(s, step), false);
  }

  /** So does a download request after a failed upload, even if every status patch succeeds. */
  lemma DownloadRequestHidesFailure()
    ensures exists t :: Reachable(t, true) && t.phase.Completed? && HasFailed(t.stored)
  {
    var s := WaitingExample(true);
    ExamplePolls();
    var step := PollOperations(FAILING_POLL, PollEnv(false, true, true));
    Reach(s, true, step);
    var pending := Apply(s, step);
    Reach(pending, true, DownloadRequest(true));
    FinishForgetfully(Apply(pending, DownloadRequest(true)), true);
  }
}
