/** Polling the asynchronous operations that plugins have started. */
module Operations {
  import opened Options

  datatype OperationPhase = New | InProgress | Completed | Failed
  {
    predicate IsTerminal() {
      Completed? || Failed?
    }
  }

  /** Times are counted from the zero time. */
  datatype Operation = Operation(
    created: int,
    phase: OperationPhase,
    error: string,
    nCompleted: int,
    nTotal: int,
    operationUnits: string,
    description: string,
    started: Option<int>,
    updated: Option<int>
  )

  /** What asking the plugin about an operation yields. */
  datatype Answer =
    | NoPlugin(error: string)
    | NoProgress(error: string)
    | Progress(completed: bool, err: string, nCompleted: int, nTotal: int, operationUnits: string,
               description: string, started: int, updated: int)

  const TIMED_OUT := "Asynchronous action timed out"

  /** A time field is set once the plugin reports a time, and follows it from then on. */
  function Timestamp(current: Option<int>, reported: int): Option<int> {
    if current.None? && reported == 0 then None else Some(reported)
  }

  function Failing(op: Operation, error: string): Operation {
    op.(phase := Failed, error := error)
  }

  /** One operation after one poll. */
  function Polled(op: Operation, a: Answer, now: int, timeout: int): Operation {
    if op.phase.IsTerminal() then op else
      match a
      case NoPlugin(error) => Failing(op, error)
      case NoProgress(error) => Failing(op, error)
      case Progress(completed, err, nCompleted, nTotal, operationUnits, description, started, updated) =>
        var seen := op.(nCompleted := nCompleted, nTotal := nTotal, operationUnits := operationUnits,
          description := description, started := Timestamp(op.started, started),
          updated := Timestamp(op.updated, updated));
        if completed then
          if err != "" then Failing(seen, err) else seen.(phase := Completed)
        else if op.created + timeout < now then Failing(seen, TIMED_OUT)
        else if op.phase.New? && seen.started.Some? then seen.(phase := InProgress)
        else seen
  }

  /** The plugin says that the operation goes on, and its deadline has not passed. */
  predicate StillRuns(op: Operation, a: Answer, now: int, timeout: int) {
    a.Progress? && !a.completed && op.created + timeout >= now
  }

  /** What the answer about an operation leads to, phase by phase and field by field. */
  ghost predicate OutcomeOf(op: Operation, a: Answer, now: int, timeout: int, r: Operation) {
    if op.phase.IsTerminal() then r == op else
      && (r.phase.Completed? <==> a.Progress? && a.completed && a.err == "")
      && (r.phase.Failed? <==>
            || a.NoPlugin? || a.NoProgress?
            || (a.Progress? && a.completed && a.err != "")
            || (a.Progress? && !a.completed && op.created + timeout < now))
      && (r.phase.InProgress? <==> StillRuns(op, a, now, timeout) && (op.phase.InProgress? || r.started.Some?))
      && (r.phase.New? <==> StillRuns(op, a, now, timeout) && op.phase.New? && r.started.None?)
      && (a.NoPlugin? || a.NoProgress? ==> r == op.(phase := Failed, error := a.error))
      && (a.Progress? && a.completed && a.err != "" ==> r.error == a.err)
      && (a.Progress? && !a.completed && op.created + timeout < now ==> r.error == TIMED_OUT)
      && (!r.phase.Failed? ==> r.error == op.error)
      && (a.Progress? ==>
            && r.created == op.created && r.nCompleted == a.nCompleted && r.nTotal == a.nTotal
            && r.operationUnits == a.operationUnits && r.description == a.description
            && r.started == (if op.started == None && a.started == 0 then None else Some(a.started))
            && r.updated == (if op.updated == None && a.updated == 0 then None else Some(a.updated)))
  }

  lemma PolledHasOutcome(op: Operation, a: Answer, now: int, timeout: int)
    ensures OutcomeOf(op, a, now, timeout, Polled(op, a, now, timeout))
  {
  }

  function PollAll(ops: seq<Operation>, answers: seq<Answer>, now: int, timeout: int): (r: seq<Operation>)
    requires |answers| == |ops|
    ensures |r| == |ops|
    ensures forall i | 0 <= i < |ops| :: r[i] == Polled(ops[i], answers[i], now, timeout)
  {
    seq(|ops|, i requires 0 <= i < |ops| => Polled(ops[i], answers[i], now, timeout))
  }

  function Count(ops: seq<Operation>, phase: OperationPhase): nat {
    if ops == [] then 0 else Count(ops[..|ops| - 1], phase) + if ops[|ops| - 1].phase == phase then 1 else 0
  }

  /** The error messages of the operations that failed between the two lists, in list order. */
  function NewErrors(before: seq<Operation>, after: seq<Operation>): (errs: seq<string>)
    requires |before| == |after|
  {
    if before == [] then [] else
      var n := |before| - 1;
      NewErrors(before[..n], after[..n])
      + if !before[n].phase.IsTerminal() && after[n].phase.Failed? then [after[n].error] else []
  }

  predicate AnyRunning(ops: seq<Operation>) {
    exists i :: 0 <= i < |ops| && !ops[i].phase.IsTerminal()
  }

  /** The poll loop; operations are updated in place. */
  method GetOperationProgress(ops: array<Operation>, answers: seq<Answer>, now: int, timeout: int)
    returns (inProgressOperations: bool, changes: bool, completedCount: nat, failedCount: nat, errs: seq<string>)
    requires |answers| == ops.Length
    modifies ops
    ensures ops[..] == PollAll(old(ops[..]), answers, now, timeout)
    ensures forall i | 0 <= i < ops.Length :: OutcomeOf(old(ops[i]), answers[i], now, timeout, ops[i])
    ensures inProgressOperations <==> AnyRunning(ops[..])
    ensures changes <==> ops[..] != old(ops[..])
    ensures completedCount == Count(ops[..], Completed) && failedCount == Count(ops[..], Failed)
    ensures errs == NewErrors(old(ops[..]), ops[..])
  {
    ghost var was := ops[..];
    inProgressOperations, changes, completedCount, failedCount, errs := false, false, 0, 0, [];
    for i := 0 to ops.Length
      invariant PolledUpTo(was, ops[..], answers, now, timeout, i)
      invariant inProgressOperations == AnyRunning(ops[..][..i])
      invariant changes == (ops[..][..i] != was[..i])
      invariant completedCount == Count(ops[..][..i], Completed) && failedCount == Count(ops[..][..i], Failed)
      invariant errs == NewErrors(was[..i], ops[..][..i])
    {
      ghost var before := ops[..];
      var op, opChanged := ops[i], false;
      if op.phase.IsTerminal() {
        if op.phase.Completed? {
          completedCount := completedCount + 1;
        } else {
          failedCount := failedCount + 1;
        }
      } else {
        op, opChanged := PollOperation(op, answers[i], now, timeout);
        changes := changes || opChanged;
        ops[i] := op;
        if op.phase.Failed? {
          errs := errs + [op.error];
          failedCount := failedCount + 1;
        } else if op.phase.Completed? {
          completedCount := completedCount + 1;
        } else {
          inProgressOperations := true;
        }
      }
      assert ops[..] == before[i := op];
      PolledOneMore(was, before, answers, now, timeout, i);
    }
    assert ops[..][..ops.Length] == ops[..] && was[..ops.Length] == was;
    forall i | 0 <= i < ops.Length
      ensures OutcomeOf(was[i], answers[i], now, timeout, ops[i])
    {
      PolledHasOutcome(was[i], answers[i], now, timeout);
    }
  }

  /** The first `i` operations are polled, the others are as they were. */
  ghost predicate PolledUpTo(was: seq<Operation>, cur: seq<Operation>, answers: seq<Answer>, now: int, timeout: int,
      i: nat)
  {
    && |was| == |cur| == |answers| && i <= |cur|
    && (forall k | 0 <= k < i :: cur[k] == Polled(was[k], answers[k], now, timeout))
    && (forall k | i <= k < |cur| :: cur[k] == was[k])
  }

  lemma PolledOneMore(was: seq<Operation>, cur: seq<Operation>, answers: seq<Answer>, now: int, timeout: int, i: nat)
    requires PolledUpTo(was, cur, answers, now, timeout, i) && i < |cur|
    ensures var op := Polled(was[i], answers[i], now, timeout);
            var next := cur[i := op];
            && PolledUpTo(was, next, answers, now, timeout, i + 1)
            && (forall p :: Count(next[..i + 1], p) == Count(cur[..i], p) + if op.phase == p then 1 else 0)
            && (AnyRunning(next[..i + 1]) <==> AnyRunning(cur[..i]) || !op.phase.IsTerminal())
            && (next[..i + 1] != was[..i + 1] <==> cur[..i] != was[..i] || op != was[i])
            && NewErrors(was[..i + 1], next[..i + 1]) == NewErrors(was[..i], cur[..i])
               + if !was[i].phase.IsTerminal() && op.phase.Failed? then [op.error] else []
  {
    var op := Polled(was[i], answers[i], now, timeout);
    assert cur[i := op][..i + 1] == cur[..i] + [op] && was[..i + 1] == was[..i] + [was[i]];
    OneMore(was[..i], cur[..i], was[i], op);
  }

  lemma OneMore(was: seq<Operation>, now: seq<Operation>, op: Operation, op': Operation)
    requires |was| == |now|
    ensures forall p :: Count(now + [op'], p) == Count(now, p) + if op'.phase == p then 1 else 0
    ensures AnyRunning(now + [op']) <==> AnyRunning(now) || !op'.phase.IsTerminal()
    ensures now + [op'] != was + [op] <==> now != was || op' != op
    ensures NewErrors(was + [op], now + [op']) ==
            NewErrors(was, now) + if !op.phase.IsTerminal() && op'.phase.Failed? then [op'.error] else []
  {
    var was', now' := was + [op], now + [op'];
    assert now'[..|now|] == now && was'[..|was|] == was;
    assert now'[|now|] == op' && was'[|was|] == op;
    if i :| 0 <= i < |now| && !now[i].phase.IsTerminal() {
      assert now'[i] == now[i];
    }
  }

  /** The body of the loop for one running operation, field by field. */
  method PollOperation(op: Operation, a: Answer, now: int, timeout: int) returns (r: Operation, changes: bool)
    requires !op.phase.IsTerminal()
    ensures r == Polled(op, a, now, timeout)
    ensures changes <==> r != op
  {
    if a.NoPlugin? || a.NoProgress? {
      return Failing(op, a.error), true;
    }
    r, changes := TakeProgress(op, a);
    if a.completed {
      if a.err != "" {
        return Failing(r, a.err), true;
      }
      return r.(phase := Completed), true;
    }
    if r.created + timeout < now {
      return Failing(r, TIMED_OUT), true;
    }
    if r.phase.New? && r.started != None {
      return r.(phase := InProgress), true;
    }
  }

  /** The progress figures, each compared before it is replaced. */
  method TakeProgress(op: Operation, a: Answer) returns (r: Operation, changes: bool)
    requires a.Progress?
    ensures r == op.(nCompleted := a.nCompleted, nTotal := a.nTotal, operationUnits := a.operationUnits,
                     description := a.description, started := Timestamp(op.started, a.started),
                     updated := Timestamp(op.updated, a.updated))
    ensures changes <==> r != op
  {
    r, changes := op, false;
    if r.nCompleted != a.nCompleted {
      r, changes := r.(nCompleted := a.nCompleted), true;
    }
    if r.nTotal != a.nTotal {
      r, changes := r.(nTotal := a.nTotal), true;
    }
    if r.operationUnits != a.operationUnits {
      r, changes := r.(operationUnits := a.operationUnits), true;
    }
    if r.description != a.description {
      r, changes := r.(description := a.description), true;
    }
    if (r.started == None && a.started != 0) || (r.started != None && r.started.value != a.started) {
      r, changes := r.(started := Some(a.started)), true;
    }
    if (r.updated == None && a.updated != 0) || (r.updated != None && r.updated.value != a.updated) {
      r, changes := r.(updated := Some(a.updated)), true;
    }
  }

  // ----- Nothing gets lost -----

  lemma {:induction false} CountsCoverTheList(ops: seq<Operation>)
    ensures Count(ops, New) + Count(ops, InProgress) + Count(ops, Completed) + Count(ops, Failed) == |ops|
    ensures AnyRunning(ops) <==> Count(ops, New) + Count(ops, InProgress) > 0
  {
    if ops != [] {
      var front := ops[..|ops| - 1];
      CountsCoverTheList(front);
      assert AnyRunning(ops) <==> AnyRunning(front) || !ops[|ops| - 1].phase.IsTerminal() by {
        if i :| 0 <= i < |ops| && !ops[i].phase.IsTerminal() {
          assert i < |front| ==> front[i] == ops[i];
        }
        if i :| 0 <= i < |front| && !front[i].phase.IsTerminal() {
          assert ops[i] == front[i];
        }
      }
    }
  }

  /** Completed, failed and still running always add up, and each new failure brings exactly one message. */
  lemma {:induction false} PollConserves(ops: seq<Operation>, answers: seq<Answer>, now: int, timeout: int)
    requires |answers| == |ops|
    ensures var after := PollAll(ops, answers, now, timeout);
            && Count(after, New) + Count(after, InProgress) + Count(after, Completed) + Count(after, Failed) == |ops|
            && |NewErrors(ops, after)| == Count(after, Failed) - Count(ops, Failed)
            && Count(after, Completed) >= Count(ops, Completed)
  {
    var after := PollAll(ops, answers, now, timeout);
    CountsCoverTheList(after);
    if ops != [] {
      var n := |ops| - 1;
      PollConserves(ops[..n], answers[..n], now, timeout);
      assert after[..n] == PollAll(ops[..n], answers[..n], now, timeout);
    }
  }

  /** Terminal operations are not touched any more. */
  lemma TerminalStays(ops: seq<Operation>, answers: seq<Answer>, now: int, timeout: int, i: nat)
    requires |answers| == |ops| && i < |ops| && ops[i].phase.IsTerminal()
    ensures PollAll(ops, answers, now, timeout)[i] == ops[i]
  {
  }

  /** A poll after every deadline leaves nothing running. */
  lemma NothingOutlivesItsDeadline(ops: seq<Operation>, answers: seq<Answer>, now: int, timeout: int)
    requires |answers| == |ops|
    requires forall i | 0 <= i < |ops| :: ops[i].created + timeout < now
    ensures !AnyRunning(PollAll(ops, answers, now, timeout))
  {
  }

  lemma {:induction false} NoErrorsMeansNoNewFailure(before: seq<Operation>, after: seq<Operation>)
    requires |before| == |after|
    ensures NewErrors(before, after) == [] <==>
            forall i | 0 <= i < |before| && !before[i].phase.IsTerminal() :: !after[i].phase.Failed?
  {
    if before != [] {
      var n := |before| - 1;
      NoErrorsMeansNoNewFailure(before[..n], after[..n]);
      assert forall i | 0 <= i < n :: before[..n][i] == before[i] && after[..n][i] == after[i];
    }
  }
}
