/** The operations controller and the finalizer as they are written, against the transition system. */
module OutcomeControllers {
  import opened BackupPhases
  import opened Options
  import opened BackupOutcome

  /** Runs the poll loop on a copy of the loaded operations. */
  method PollLoaded(loaded: seq<Operation>, answers: seq<Answer>, now: int, timeout: int)
    returns (operations: seq<Operation>, errors: nat, inProgress: bool)
    requires |answers| == |loaded|
    ensures IsPollOf(Poll(answers, now, timeout, operations, errors, inProgress), loaded)
  {
    var ops := new Operation[|loaded|](i requires 0 <= i < |loaded| => loaded[i]);
    assert ops[..] == loaded;
    var running, _, _, _, errs := Operations.GetOperationProgress(ops, answers, now, timeout);
    operations, errors, inProgress := ops[..], |errs|, running;
  }

  /** Everything the two controllers read and write about one backup. */
  class Controllers {
    var phase: Phase
    var memory: Option<Memory>
    var stored: seq<Operation>
    var metadata: Option<Phase>
    var finalContents: bool
    ghost var ran: bool
    ghost var initialErrors: bool
    ghost var operationFailed: bool
    ghost var forgotten: bool

    ghost function View(): State
      reads this
    {
      State(phase, ran, memory, stored, metadata, finalContents, initialErrors, operationFailed, forgotten)
    }

    /** Polls, picks the phase, and writes metadata, operations and status in this order. */
    method ReconcileOperations(answers: seq<Answer>, now: int, timeout: int, env: PollEnv) returns (ghost poll: Poll)
      requires IsWaiting(phase) && |answers| == |Loaded(View()).operations|
      modifies this
      ensures poll.answers == answers && poll.now == now && poll.timeout == timeout
      ensures IsPollOf(poll, Loaded(old(View())).operations)
      ensures View() == ApplyPoll(old(View()), poll, env)
      // With every call successful: errors turn the phase, and the waiting is over exactly if nothing runs any more.
      ensures env.metadataUploaded && env.operationsUploaded && env.patched ==>
                && (IsFinalizing(phase) <==> !Operations.AnyRunning(poll.operations))
                && (IsWaiting(phase) <==> Operations.AnyRunning(poll.operations))
                && (IsPartiallyFailedVariant(phase) <==>
                      IsPartiallyFailedVariant(old(phase)) || Unreported(old(View())) + poll.errors > 0)
      ensures !(env.metadataUploaded && env.operationsUploaded && env.patched) ==> phase == old(phase)
      ensures phase != old(phase) ==> stored == poll.operations && metadata == Some(phase)
    {
      ghost var was := View();
      poll := PollAndReport(answers, now, timeout, env);
      PollDecides(was, poll, env);
    }

    method PollAndReport(answers: seq<Answer>, now: int, timeout: int, env: PollEnv) returns (ghost poll: Poll)
      requires IsWaiting(phase) && |answers| == |Loaded(View()).operations|
      modifies this
      ensures poll.answers == answers && poll.now == now && poll.timeout == timeout
      ensures IsPollOf(poll, Loaded(old(View())).operations)
      ensures View() == ApplyPoll(old(View()), poll, env)
    {
      var loaded := if memory.Some? && memory.value.operations != [] then memory.value else Memory(stored, 0);
      var operations, errors, inProgress := PollLoaded(loaded.operations, answers, now, timeout);
      poll := Poll(answers, now, timeout, operations, errors, inProgress);
      operationFailed := operationFailed || errors > 0;
      var pending := loaded.errsSinceUpdate + errors;
      var next := PickPhase(pending, inProgress);
      UpdateBackupAndOperationsJSON(operations, pending, next, env);
    }

    /** Errors turn the phase, and with nothing running any more the backup moves on to finalizing. */
    method PickPhase(pending: nat, inProgress: bool) returns (next: Phase)
      ensures next == PhaseAfterPoll(phase, pending > 0, inProgress)
      ensures IsWaiting(phase) ==> (IsFinalizing(next) <==> !inProgress) && (IsWaiting(next) <==> inProgress)
      ensures IsWaiting(phase) ==> (IsPartiallyFailedVariant(next) <==> IsPartiallyFailedVariant(phase) || pending > 0)
    {
      next := phase;
      if pending > 0 {
        next := WaitingForPluginOperationsPartiallyFailed;
      }
      if !inProgress {
        if next.WaitingForPluginOperations? {
          next := Finalizing;
        } else {
          next := FinalizingPartiallyFailed;
        }
      }
    }

    method UpdateBackupAndOperationsJSON(operations: seq<Operation>, pending: nat, next: Phase, env: PollEnv)
      modifies this
      ensures View() == Reported(old(View()), operations, pending, next, env)
    {
      memory := Some(Memory(operations, pending));
      if pending > 0 || next.Finalizing? || next.FinalizingPartiallyFailed? {
        if !env.metadataUploaded {
          return;
        }
        metadata := Some(next);
        if !env.operationsUploaded {
          return;
        }
        stored, memory := operations, Some(Memory(operations, 0));
        if !env.patched {
          forgotten := forgotten || (pending > 0 && phase.WaitingForPluginOperations?);
          return;
        }
        phase := next;
        if next.Finalizing? || next.FinalizingPartiallyFailed? {
          memory := None;
        }
      }
    }

    /** Every call the finalizer needs; contents are only uploaded if there are operations. */
    ghost predicate FinalizerSucceeds(fin: FinalizeEnv)
      reads this
    {
      fin.prepared && fin.metadataUploaded && (|stored| > 0 ==> fin.contentsUploaded) && fin.patched
    }

    /** Uploads first; only then is the end phase set, and the deferred patch is the last thing to happen. */
    method ReconcileFinalizing(fin: FinalizeEnv)
      requires IsFinalizing(phase)
      modifies this
      ensures View() == ApplyFinalize(old(View()), fin)
      ensures phase.Completed? <==> old(phase).Finalizing? && FinalizerSucceeds(fin)
      ensures phase.PartiallyFailed? <==> old(phase).FinalizingPartiallyFailed? && FinalizerSucceeds(fin)
      ensures !FinalizerSucceeds(fin) ==> phase == old(phase)
    {
      var inMemory := phase;
      if !fin.prepared {
        return;
      }
      var finalPhase;
      if inMemory.Finalizing? {
        finalPhase := Phase.Completed;
      } else {
        finalPhase := PartiallyFailed;
      }
      if !fin.metadataUploaded {
        return;
      }
      metadata := Some(finalPhase);
      var withOperations := |stored| > 0;
      if withOperations {
        if !fin.contentsUploaded {
          return;
        }
      }
      finalContents := withOperations;
      inMemory := finalPhase;
      if fin.patched {
        phase := inMemory;
      }
    }
  }
}
