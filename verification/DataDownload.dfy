/**
 The DataDownload protocol: every node agent reconciles the same stored object.

 Updates are optimistic. An update carries the object that was read, and succeeds only while the stored version is
 still the one that was read. A conflict makes the retrying updates read again and the exclusive ones give up.
 */
module DataDownloadProtocol {
  import opened Options

  type Node = string

  datatype Phase = Unset | New | Accepted | Prepared | InProgress | Canceling | Canceled | Completed | Failed
  {
    predicate IsNew() {
      Unset? || New?
    }

    predicate IsFinal() {
      Failed? || Canceled? || Completed?
    }
  }

  datatype DataDownload = DataDownload(
    version: nat,
    phase: Phase,
    cancel: bool,
    deleting: bool,
    finalizer: bool,
    exposeOnGoing: bool,          // the label
    acceptedByNode: Node,
    node: Node,
    started: bool                 // whether the start timestamp is set
  )

  /** The updates, each named after what it does to the object. */
  datatype Write =
    | AddFinalizer
    | RemoveFinalizer
    | SetCancel
    | Accept(agent: Node)
    | FailOnPrepareTimeout
    | TryCancel(overdue: bool)
    | MarkPrepared(agent: Node)
    | MarkInProgress
    | MarkCanceling
    | MarkCompleted
    | MarkFailed
    | MarkCanceled
    | ReportProgress
  {
    /** One attempt, given up on a conflict. */
    predicate IsExclusive() {
      Accept? || FailOnPrepareTimeout? || TryCancel?
    }
  }

  /** The update function applied to the object that was read; None when it decides to write nothing. */
  function Mutate(w: Write, dd: DataDownload): Option<DataDownload> {
    match w
    case AddFinalizer => if dd.finalizer then None else Some(dd.(finalizer := true))
    case RemoveFinalizer => if !dd.finalizer then None else Some(dd.(finalizer := false))
    case SetCancel => if dd.cancel then None else Some(dd.(cancel := true))
    case Accept(agent) => Some(dd.(phase := Accepted, acceptedByNode := agent, exposeOnGoing := true))
    case FailOnPrepareTimeout => Some(dd.(phase := Failed, exposeOnGoing := false))
    case TryCancel(_) => Some(dd.(phase := Canceled, started := true, exposeOnGoing := false))
    case MarkPrepared(agent) => if dd.phase.IsFinal() then None else Some(dd.(phase := Prepared, node := agent))
    case MarkInProgress =>
      if dd.phase.IsFinal() then None else Some(dd.(phase := InProgress, started := true, exposeOnGoing := false))
    case MarkCanceling => if dd.phase.IsFinal() then None else Some(dd.(phase := Canceling))
    case MarkCompleted => if dd.phase.IsFinal() then None else Some(dd.(phase := Completed, exposeOnGoing := false))
    case MarkFailed => if dd.phase.IsFinal() then None else Some(dd.(phase := Failed, exposeOnGoing := false))
    case MarkCanceled =>
      if dd.phase.IsFinal() then None else Some(dd.(phase := Canceled, started := true, exposeOnGoing := false))
    case ReportProgress => Some(dd)
  }

  /** The phase an update puts the object into, if it touches the phase at all. */
  predicate LeadsTo(w: Write, phase: Phase) {
    match phase
    case Accepted => w.Accept?
    case Prepared => w.MarkPrepared?
    case InProgress => w.MarkInProgress?
    case Canceling => w.MarkCanceling?
    case Canceled => w.MarkCanceled? || w.TryCancel?
    case Completed => w.MarkCompleted?
    case Failed => w.MarkFailed? || w.FailOnPrepareTimeout?
    case _ => false
  }

  /** Updates of flags and progress leave the phase alone. */
  predicate MovesPhase(w: Write) {
    !w.AddFinalizer? && !w.RemoveFinalizer? && !w.SetCancel? && !w.ReportProgress?
  }

  /** Field by field: which updates change it, and to what. */
  lemma UpdatedFields(w: Write, dd: DataDownload)
    ensures Mutate(w, dd).None? <==>
              || (w.AddFinalizer? && dd.finalizer) || (w.RemoveFinalizer? && !dd.finalizer) || (w.SetCancel? && dd.cancel)
              || (dd.phase.IsFinal() && MovesPhase(w) && !w.IsExclusive())
    ensures var u := Mutate(w, dd);
            u.Some? ==>
              && (if MovesPhase(w) then LeadsTo(w, u.value.phase) else u.value.phase == dd.phase)
              && u.value.version == dd.version && u.value.deleting == dd.deleting
              && u.value.cancel == (dd.cancel || w.SetCancel?)
              && u.value.finalizer == (w.AddFinalizer? || (dd.finalizer && !w.RemoveFinalizer?))
              && u.value.acceptedByNode == (if w.Accept? then w.agent else dd.acceptedByNode)
              && u.value.node == (if w.MarkPrepared? then w.agent else dd.node)
              && (u.value.exposeOnGoing <==>
                    w.Accept? || (dd.exposeOnGoing && (!MovesPhase(w) || w.MarkPrepared? || w.MarkCanceling?)))
              && (u.value.started <==> dd.started || w.MarkInProgress? || w.MarkCanceled? || w.TryCancel?)
  {
  }

  // ----- What one reconcile decides -----

  /** What the reconcile finds out besides the object it read. */
  datatype Findings = Findings(
    overdue: bool,                // the cancel has been pending longer than allowed
    constrained: bool,
    targetPVCFound: bool,
    exposeError: bool,
    prepareTimedOut: bool,
    dataPathRunning: bool,
    exposed: bool,
    dataPathLimited: bool,
    dataPathReady: bool
  )

  /** At most one update, and whether this node remembers a pending cancel afterwards. */
  datatype Decision = Decision(write: Option<Write>, remembersCancel: bool)

  function Decide(dd: DataDownload, me: Node, remembered: bool, f: Findings): Decision {
    if !dd.phase.IsFinal() && !dd.finalizer then
      Decision(Some(AddFinalizer), remembered)
    else if !dd.phase.IsFinal() && dd.deleting && !dd.cancel then
      Decision(Some(SetCancel), remembered)
    else if dd.phase.IsFinal() && dd.finalizer then
      Decision(Some(RemoveFinalizer), false)
    else
      // The memory of a final object is cleared before it could be found overdue.
      var loaded := remembered && !dd.phase.IsFinal();
      if dd.cancel && loaded && f.overdue then
        Decision(Some(TryCancel(true)), true)
      else
        Decision(DecideByPhase(dd, me, f), loaded || dd.cancel)
  }

  function DecideByPhase(dd: DataDownload, me: Node, f: Findings): Option<Write> {
    match dd.phase
    case Unset => DecideNew(dd, me, f)
    case New => DecideNew(dd, me, f)
    case Accepted =>
      if f.exposeError then Some(TryCancel(false))
      else if f.prepareTimedOut then Some(FailOnPrepareTimeout)
      else None
    case Prepared =>
      if dd.node != me then None
      else if dd.cancel then Some(MarkCanceled)
      else if f.dataPathRunning then None
      else if !f.exposed then Some(MarkFailed)
      else if f.dataPathLimited then None
      else if !f.dataPathReady then Some(MarkFailed)
      else Some(MarkInProgress)
    case InProgress =>
      if !dd.cancel || dd.node != me then None
      else if !f.dataPathRunning then Some(MarkCanceled)
      else Some(MarkCanceling)
    case _ => None
  }

  function DecideNew(dd: DataDownload, me: Node, f: Findings): Option<Write> {
    if dd.cancel then Some(TryCancel(false))
    else if f.constrained || !f.targetPVCFound then None
    else Some(Accept(me))
  }

  /** The object carries the finalizer, its deletion has become a cancel, and no cancel has been pending too long. */
  predicate Undisturbed(dd: DataDownload, remembered: bool, f: Findings) {
    && !dd.phase.IsFinal() && dd.finalizer
    && (dd.deleting ==> dd.cancel)
    && !(dd.cancel && remembered && f.overdue)
  }

  /** Update by update: exactly when the reconcile on node `me` is to make it. */
  predicate Due(w: Write, dd: DataDownload, me: Node, remembered: bool, f: Findings) {
    match w
    case AddFinalizer => !dd.phase.IsFinal() && !dd.finalizer
    case SetCancel => !dd.phase.IsFinal() && dd.finalizer && dd.deleting && !dd.cancel
    case RemoveFinalizer => dd.phase.IsFinal() && dd.finalizer
    case TryCancel(true) => !dd.phase.IsFinal() && dd.finalizer && dd.cancel && remembered && f.overdue
    case TryCancel(false) =>
      Undisturbed(dd, remembered, f) && ((dd.phase.IsNew() && dd.cancel) || (dd.phase.Accepted? && f.exposeError))
    case Accept(agent) =>
      && agent == me && Undisturbed(dd, remembered, f) && dd.phase.IsNew() && !dd.cancel
      && !f.constrained && f.targetPVCFound
    case FailOnPrepareTimeout =>
      Undisturbed(dd, remembered, f) && dd.phase.Accepted? && !f.exposeError && f.prepareTimedOut
    case MarkInProgress =>
      Startable(dd, me, remembered, f) && f.exposed && !f.dataPathLimited && f.dataPathReady
    case MarkFailed =>
      Startable(dd, me, remembered, f) && (!f.exposed || (!f.dataPathLimited && !f.dataPathReady))
    case MarkCanceled =>
      && Undisturbed(dd, remembered, f) && dd.cancel && dd.node == me
      && (dd.phase.Prepared? || (dd.phase.InProgress? && !f.dataPathRunning))
    case MarkCanceling =>
      Undisturbed(dd, remembered, f) && dd.cancel && dd.node == me && dd.phase.InProgress? && f.dataPathRunning
    case MarkPrepared(_) => false
    case MarkCompleted => false
    case ReportProgress => false
  }

  /** Prepared for this node, and this node has yet to start its data path. */
  predicate Startable(dd: DataDownload, me: Node, remembered: bool, f: Findings) {
    Undisturbed(dd, remembered, f) && dd.phase.Prepared? && dd.node == me && !dd.cancel && !f.dataPathRunning
  }

  /** A pending cancel is remembered from the first reconcile that gets to see it until the object is final. */
  predicate StaysRemembered(dd: DataDownload, remembered: bool) {
    if !dd.phase.IsFinal() && (!dd.finalizer || (dd.deleting && !dd.cancel)) then remembered
    else if dd.phase.IsFinal() then dd.cancel && !dd.finalizer
    else dd.cancel || remembered
  }

  /** The reconcile decides on exactly the update that is due, if any is. */
  lemma DecidesWhatIsDue(dd: DataDownload, me: Node, remembered: bool, f: Findings)
    ensures var d := Decide(dd, me, remembered, f);
            && (forall w :: d.write == Some(w) <==> Due(w, dd, me, remembered, f))
            && d.remembersCancel == StaysRemembered(dd, remembered)
  {
  }

  /** Which objects an exclusive update, or one that needs a history, is ever decided on. */
  lemma DecisionsFitTheObject(dd: DataDownload, me: Node, remembered: bool, f: Findings)
    ensures var w := Decide(dd, me, remembered, f).write;
            w.Some? ==> DecidedOn(w.value, dd)
  {
  }

  predicate DecidedOn(w: Write, dd: DataDownload) {
    match w
    case Accept(_) => dd.phase.IsNew() && !dd.cancel
    case FailOnPrepareTimeout => dd.phase.Accepted?
    case TryCancel(_) => !dd.phase.IsFinal()
    case RemoveFinalizer => dd.phase.IsFinal()
    case MarkInProgress => dd.phase.Prepared?
    case MarkCanceling => dd.phase.InProgress?
    case _ => true
  }

  /** The reconcile as written: the node's memory of pending cancels is a map it updates as it goes along. */
  class DataDownloadReconciler {
    const nodeName: Node
    var cancelledDataDownload: set<string>

    constructor (nodeName: Node)
      ensures this.nodeName == nodeName && cancelledDataDownload == {}
    {
      this.nodeName := nodeName;
      cancelledDataDownload := {};
    }

    method Reconcile(name: string, dd: DataDownload, f: Findings) returns (write: Option<Write>)
      modifies this
      ensures write == Decide(dd, nodeName, name in old(cancelledDataDownload), f).write
      ensures forall w :: write == Some(w) <==> Due(w, dd, nodeName, name in old(cancelledDataDownload), f)
      ensures cancelledDataDownload ==
              if StaysRemembered(dd, name in old(cancelledDataDownload)) then old(cancelledDataDownload) + {name}
              else old(cancelledDataDownload) - {name}
    {
      DecidesWhatIsDue(dd, nodeName, name in cancelledDataDownload, f);
      if !dd.phase.IsFinal() {
        if !dd.finalizer {
          return Some(AddFinalizer);
        }
        if dd.deleting {
          if !dd.cancel {
            return Some(SetCancel);
          }
        }
      } else {
        cancelledDataDownload := cancelledDataDownload - {name};
        if dd.finalizer {
          return Some(RemoveFinalizer);
        }
      }
      if dd.cancel {
        var loaded := name in cancelledDataDownload;
        cancelledDataDownload := cancelledDataDownload + {name};
        if loaded && f.overdue {
          return Some(TryCancel(true));
        }
      }
      write := DecideByPhase(dd, nodeName, f);
    }
  }

  // ----- The transition system -----

  /** A thread of some node agent, between two API calls. */
  datatype Task =
    | Deciding(agent: Node, copy: DataDownload)
    | Getting(agent: Node, write: Write)
    | Writing(agent: Node, write: Write, copy: DataDownload)

  datatype State = State(
    store: Option<DataDownload>,
    tasks: map<nat, Task>,
    remembering: set<Node>,       // nodes remembering a pending cancel
    acceptances: seq<Node>        // every node whose accepting update succeeded
  )

  datatype Step =
    | StartReconcile(id: nat, agent: Node)
    | DecideNow(id: nat, f: Findings)
    | StartUpdate(id: nat, agent: Node, w: Write)
    | PodEvent(id: nat, agent: Node, running: bool)
    | Get(id: nat)
    | Commit(id: nat)
    | Drop(id: nat)
    | Forget(agent: Node)
    | RequestCancel
    | RequestDelete

  /** Updates a callback or a failed exposure may start at any moment, on any node. */
  predicate StartsAnytime(w: Write) {
    w.MarkCompleted? || w.MarkFailed? || w.MarkCanceled? || w.ReportProgress? || w.SetCancel?
  }

  ghost predicate Init(s: State) {
    && s.tasks == map[] && s.remembering == {} && s.acceptances == []
    && s.store.Some? && s.store.value.phase.IsNew()
    && !s.store.value.exposeOnGoing && !s.store.value.started
  }

  predicate Enabled(s: State, step: Step) {
    match step
    case StartReconcile(id, _) => id !in s.tasks && s.store.Some?
    case DecideNow(id, _) => id in s.tasks && s.tasks[id].Deciding?
    case StartUpdate(id, _, w) => id !in s.tasks && StartsAnytime(w)
    case PodEvent(id, _, _) => id !in s.tasks && s.store.Some? && s.store.value.phase.Accepted?
    case Get(id) => id in s.tasks && s.tasks[id].Getting?
    case Commit(id) => id in s.tasks && s.tasks[id].Writing?
    case Drop(id) => id in s.tasks
    case Forget(_) => true
    case RequestCancel => s.store.Some?
    case RequestDelete => s.store.Some?
  }

  /** What the API server keeps: an object being deleted is gone once it has no finalizer. */
  function Stored(dd: DataDownload): Option<DataDownload> {
    if dd.deleting && !dd.finalizer then None else Some(dd.(version := dd.version + 1))
  }

  function Apply(s: State, step: Step): State
    requires Enabled(s, step)
  {
    match step
    case StartReconcile(id, agent) => s.(tasks := s.tasks[id := Deciding(agent, s.store.value)])
    case DecideNow(id, f) => ApplyDecision(s, id, f)
    case StartUpdate(id, agent, w) => s.(tasks := s.tasks[id := Getting(agent, w)])
    case PodEvent(id, agent, running) =>
      s.(tasks := s.tasks[id := Getting(agent, if running then MarkPrepared(agent) else SetCancel)])
    case Get(id) => ApplyGet(s, id)
    case Commit(id) => ApplyCommit(s, id)
    case Drop(id) => s.(tasks := s.tasks - {id})
    case Forget(agent) => s.(remembering := s.remembering - {agent})
    case RequestCancel => s.(store := Stored(s.store.value.(cancel := true)))
    case RequestDelete => s.(store := Stored(s.store.value.(deleting := true)))
  }

  function ApplyDecision(s: State, id: nat, f: Findings): State
    requires id in s.tasks && s.tasks[id].Deciding?
  {
    var agent, copy := s.tasks[id].agent, s.tasks[id].copy;
    var d := Decide(copy, agent, agent in s.remembering, f);
    s.(remembering := if d.remembersCancel then s.remembering + {agent} else s.remembering - {agent},
       tasks := match d.write
                case None => s.tasks - {id}
                case Some(w) => s.tasks[id := if w.IsExclusive() then Writing(agent, w, copy) else Getting(agent, w)])
  }

  function ApplyGet(s: State, id: nat): State
    requires id in s.tasks && s.tasks[id].Getting?
  {
    var agent, w := s.tasks[id].agent, s.tasks[id].write;
    if s.store.None? || Mutate(w, s.store.value).None? then s.(tasks := s.tasks - {id})
    else s.(tasks := s.tasks[id := Writing(agent, w, s.store.value)])
  }

  /** The update succeeds only on the very version that was read. */
  function ApplyCommit(s: State, id: nat): State
    requires id in s.tasks && s.tasks[id].Writing?
  {
    var agent, w, copy := s.tasks[id].agent, s.tasks[id].write, s.tasks[id].copy;
    var updated := Mutate(w, copy);
    if s.store.None? || updated.None? then
      s.(tasks := s.tasks - {id})
    else if s.store.value.version != copy.version then
      s.(tasks := if w.IsExclusive() then s.tasks - {id} else s.tasks[id := Getting(agent, w)])
    else
      State(Stored(updated.value), s.tasks - {id},
        if w == TryCancel(true) || w.MarkCanceled? then s.remembering - {agent} else s.remembering,
        if w.Accept? then s.acceptances + [w.agent] else s.acceptances)
  }

  // ----- The invariant -----

  /** A copy of the current version is the stored object; other copies are older. */
  predicate CopyIsPast(s: State, copy: DataDownload) {
    s.store.Some? ==> copy.version <= s.store.value.version
                      && (copy.version == s.store.value.version ==> copy == s.store.value)
  }

  predicate TaskConsistent(s: State, t: Task) {
    match t
    case Deciding(_, copy) => CopyIsPast(s, copy) && PastFacts(s, copy)
    case Getting(_, w) => !w.IsExclusive() && Justified(s, w)
    case Writing(agent, w, copy) =>
      CopyIsPast(s, copy) && Justified(s, w) && (w.IsExclusive() ==> DecidedOn(w, copy)) && (w.Accept? ==> w.agent == agent)
  }

  /** What an earlier copy tells about the object now. */
  predicate PastFacts(s: State, copy: DataDownload) {
    s.store.Some? ==>
      && (copy.phase.IsFinal() ==> s.store.value.phase == copy.phase)
      && (copy.phase.InProgress? ==> s.store.value.started)
      && (!copy.phase.IsNew() ==> !s.store.value.phase.IsNew())
  }

  /** Updates that do not check for themselves whether they still make sense rest on what cannot change any more. */
  predicate Justified(s: State, w: Write) {
    s.store.Some? ==>
      && (w.RemoveFinalizer? ==> s.store.value.phase.IsFinal())
      && (w.MarkCanceling? ==> s.store.value.started)
      && (w.MarkInProgress? || w.MarkPrepared? ==> !s.store.value.phase.IsNew())
  }

  predicate ObjectConsistent(dd: DataDownload, acceptances: seq<Node>) {
    && (dd.exposeOnGoing ==> dd.phase.Accepted? || dd.phase.Prepared?)
    && (dd.phase.Accepted? ==> dd.exposeOnGoing)
    && (dd.started ==> !dd.exposeOnGoing && !dd.phase.IsNew())
    && (dd.phase.InProgress? ==> dd.started)
    && (dd.phase.IsNew() ==> acceptances == [])
    && (acceptances != [] ==> acceptances == [dd.acceptedByNode])
  }

  ghost predicate Inv(s: State) {
    && (s.store.Some? ==> ObjectConsistent(s.store.value, s.acceptances))
    && |s.acceptances| <= 1
    && (forall id | id in s.tasks :: TaskConsistent(s, s.tasks[id]))
  }

  lemma InitInv(s: State)
    requires Init(s)
    ensures Inv(s)
  {
  }

  /** How the stored object may change in one step. */
  predicate ObjectMoves(o: DataDownload, o': DataDownload) {
    && (o'.version > o.version || o' == o)
    && (o.phase.IsFinal() ==> o'.phase == o.phase)
    && (o.started ==> o'.started)
    && (!o.phase.IsNew() ==> !o'.phase.IsNew())
    && (o.finalizer && !o'.finalizer ==> o.phase.IsFinal())
  }

  lemma StepMovesObject(s: State, step: Step)
    requires Inv(s) && Enabled(s, step)
    ensures var s' := Apply(s, step);
            && (s.store.None? ==> s'.store.None?)
            && (s.store.Some? && s'.store.Some? ==> ObjectMoves(s.store.value, s'.store.value))
            && (s.store.Some? && s'.store.Some? ==> ObjectConsistent(s'.store.value, s'.acceptances))
            && |s'.acceptances| <= 1
            && (s.store.Some? && s'.store.None? ==> !s.store.value.finalizer || s.store.value.phase.IsFinal())
  {
    if step.Commit? {
      assert TaskConsistent(s, s.tasks[step.id]);
    }
  }

  lemma TaskKept(s: State, step: Step, id: nat)
    requires Inv(s) && Enabled(s, step)
    requires id in Apply(s, step).tasks
    ensures TaskConsistent(Apply(s, step), Apply(s, step).tasks[id])
  {
    StepMovesObject(s, step);
    if id in s.tasks {
      assert TaskConsistent(s, s.tasks[id]);
      if step.DecideNow? && step.id == id {
        DecisionsFitTheObject(s.tasks[id].copy, s.tasks[id].agent, s.tasks[id].agent in s.remembering, step.f);
      }
    }
  }

  lemma StepKeepsInv(s: State, step: Step)
    requires Inv(s) && Enabled(s, step)
    ensures Inv(Apply(s, step))
  {
    StepMovesObject(s, step);
    forall id | id in Apply(s, step).tasks
      ensures TaskConsistent(Apply(s, step), Apply(s, step).tasks[id])
    {
      TaskKept(s, step, id);
    }
  }

  // ----- Whole runs -----

  ghost predicate IsRun(states: seq<State>, steps: seq<Step>) {
    && |states| == |steps| + 1 && Init(states[0])
    && forall i | 0 <= i < |steps| :: Enabled(states[i], steps[i]) && states[i + 1] == Apply(states[i], steps[i])
  }

  lemma {:induction false} RunKeepsInv(states: seq<State>, steps: seq<Step>, i: nat)
    requires IsRun(states, steps) && i < |states|
    ensures Inv(states[i])
  {
    if i == 0 {
      InitInv(states[0]);
    } else {
      RunKeepsInv(states, steps, i - 1);
      StepKeepsInv(states[i - 1], steps[i - 1]);
      assert states[i] == states[i - 1 + 1];
    }
  }

  /** Once Completed, Failed or Canceled, the phase never changes again. */
  lemma {:induction false} FinalPhaseIsAbsorbing(states: seq<State>, steps: seq<Step>, i: nat, j: nat)
    requires IsRun(states, steps) && i <= j < |states|
    requires states[i].store.Some? && states[i].store.value.phase.IsFinal()
    ensures states[j].store.Some? ==> states[j].store.value.phase == states[i].store.value.phase
    decreases j
  {
    if i < j {
      FinalPhaseIsAbsorbing(states, steps, i, j - 1);
      RunKeepsInv(states, steps, j - 1);
      StepMovesObject(states[j - 1], steps[j - 1]);
      assert states[j] == states[j - 1 + 1];
    }
  }

  /** Once it carries the finalizer, an object that is not final is still there and still carries it. */
  lemma {:induction false} FinalizerHeldUntilFinal(states: seq<State>, steps: seq<Step>, i: nat, j: nat)
    requires IsRun(states, steps) && i <= j < |states|
    requires states[i].store.Some? && states[i].store.value.finalizer
    ensures || (exists k :: i <= k <= j && states[k].store.Some? && states[k].store.value.phase.IsFinal())
            || (states[j].store.Some? && states[j].store.value.finalizer)
    decreases j
  {
    if i < j {
      FinalizerHeldUntilFinal(states, steps, i, j - 1);
      RunKeepsInv(states, steps, j - 1);
      StepMovesObject(states[j - 1], steps[j - 1]);
      assert states[j] == states[j - 1 + 1];
    }
  }

  /** At most one node ever succeeds in accepting the object, and the object names it. */
  lemma AcceptedAtMostOnce(states: seq<State>, steps: seq<Step>, i: nat)
    requires IsRun(states, steps) && i < |states|
    ensures |states[i].acceptances| <= 1
    ensures states[i].store.Some? && states[i].acceptances != [] ==>
              states[i].acceptances == [states[i].store.value.acceptedByNode]
  {
    RunKeepsInv(states, steps, i);
  }

  /** The expose-ongoing label is only there while the phase is Accepted or Prepared, and always while Accepted. */
  lemma LabelOnlyWhileExposing(states: seq<State>, steps: seq<Step>, i: nat)
    requires IsRun(states, steps) && i < |states| && states[i].store.Some?
    ensures var dd := states[i].store.value;
            && (dd.exposeOnGoing ==> dd.phase.Accepted? || dd.phase.Prepared?)
            && (dd.phase.Accepted? ==> dd.exposeOnGoing)
  {
    RunKeepsInv(states, steps, i);
  }

  /** An exclusive update that succeeds was decided on exactly the object it replaces. */
  lemma ExclusiveUpdatesNeverClobber(states: seq<State>, steps: seq<Step>, i: nat)
    requires IsRun(states, steps) && i < |steps| && steps[i].Commit?
    requires states[i].tasks[steps[i].id].write.IsExclusive()
    requires states[i + 1].store != states[i].store
    ensures states[i].store == Some(states[i].tasks[steps[i].id].copy)
    ensures DecidedOn(states[i].tasks[steps[i].id].write, states[i].store.value)
  {
    RunKeepsInv(states, steps, i);
    assert TaskConsistent(states[i], states[i].tasks[steps[i].id]);
  }

  // ----- Every change of phase is due -----

  /** Step `j` is the decision of a reconcile on node `agent` to make the update, which was due then. */
  ghost predicate DecidedAt(states: seq<State>, steps: seq<Step>, j: nat, agent: Node, w: Write) {
    && j < |steps| < |states| && steps[j].DecideNow?
    && steps[j].id in states[j].tasks && states[j].tasks[steps[j].id].Deciding?
    && states[j].tasks[steps[j].id].agent == agent
    && Due(w, states[j].tasks[steps[j].id].copy, agent, agent in states[j].remembering, steps[j].f)
  }

  /** Pod events and callbacks aside, an update under way was decided on earlier in the run. */
  ghost predicate Warranted(states: seq<State>, steps: seq<Step>, i: nat, agent: Node, w: Write) {
    StartsAnytime(w) || w.MarkPrepared? || exists j: nat :: j < i && DecidedAt(states, steps, j, agent, w)
  }

  lemma {:induction false} UpdatesAreWarranted(states: seq<State>, steps: seq<Step>, i: nat, id: nat)
    requires IsRun(states, steps) && i < |states|
    requires id in states[i].tasks && !states[i].tasks[id].Deciding?
    ensures Warranted(states, steps, i, states[i].tasks[id].agent, states[i].tasks[id].write)
  {
    var before, step := states[i - 1], steps[i - 1];
    assert states[i] == states[i - 1 + 1];
    if id in before.tasks && !before.tasks[id].Deciding? {
      UpdatesAreWarranted(states, steps, i - 1, id);
    } else if step.DecideNow? && step.id == id {
      var t := before.tasks[id];
      DecidesWhatIsDue(t.copy, t.agent, t.agent in before.remembering, step.f);
      assert DecidedAt(states, steps, i - 1, t.agent, states[i].tasks[id].write);
    }
  }

  /** The phase changes only by an update that leads to the new phase, on the very object that was read, and an update
      the reconcile makes was due on what the reconcile had read. */
  lemma PhaseChangesAreDue(states: seq<State>, steps: seq<Step>, i: nat)
    requires IsRun(states, steps) && i < |steps|
    requires states[i].store.Some? && states[i + 1].store.Some?
    requires states[i].store.value.phase != states[i + 1].store.value.phase
    ensures steps[i].Commit?
    ensures var t := states[i].tasks[steps[i].id];
            && t.copy == states[i].store.value
            && LeadsTo(t.write, states[i + 1].store.value.phase)
            && Warranted(states, steps, i, t.agent, t.write)
  {
    RunKeepsInv(states, steps, i);
    UpdatesAreWarranted(states, steps, i, steps[i].id);
    var t := states[i].tasks[steps[i].id];
    assert TaskConsistent(states[i], t);
    UpdatedFields(t.write, t.copy);
  }

  /** A data path runs only on the node the object is prepared for: whenever the object is in progress, a reconcile had
      found it prepared for its node, exposed, ready and neither cancelled nor limited. */
  lemma {:induction false} InProgressOnlyWhenReady(states: seq<State>, steps: seq<Step>, i: nat)
    requires IsRun(states, steps) && i < |states|
    requires states[i].store.Some? && states[i].store.value.phase.InProgress?
    ensures exists j: nat, agent :: j < i && DecidedAt(states, steps, j, agent, MarkInProgress)
  {
    var before := states[i - 1];
    assert states[i] == states[i - 1 + 1];
    if before.store.value.phase.InProgress? {
      InProgressOnlyWhenReady(states, steps, i - 1);
    } else {
      PhaseChangesAreDue(states, steps, i - 1);
    }
  }

  // ----- A run that completes -----

  lemma Extend(states: seq<State>, steps: seq<Step>, step: Step) returns (states': seq<State>, steps': seq<Step>)
    requires IsRun(states, steps) && Enabled(states[|steps|], step)
    ensures IsRun(states', steps') && states <= states' && |steps'| == |steps| + 1
    ensures states'[|steps'|] == Apply(states[|steps|], step)
  {
    states', steps' := states + [Apply(states[|steps|], step)], steps + [step];
  }

  /** Nobody interferes with the update that the given step started: it is committed. */
  lemma Carry(states: seq<State>, steps: seq<Step>, agent: Node, w: Write)
    returns (states': seq<State>, steps': seq<Step>)
    requires IsRun(states, steps) && states[|steps|].store.Some?
    requires var s := states[|steps|];
             s.tasks == map[0 := if w.IsExclusive() then Writing(agent, w, s.store.value) else Getting(agent, w)]
    requires Mutate(w, states[|steps|].store.value).Some?
    ensures IsRun(states', steps') && states <= states'
    ensures states'[|steps'|].tasks == map[]
    ensures states'[|steps'|].store == Stored(Mutate(w, states[|steps|].store.value).value)
  {
    states', steps' := states, steps;
    if !w.IsExclusive() {
      states', steps' := Extend(states, steps, Get(0));
    }
    assert states'[|steps'|].tasks == map[0 := Writing(agent, w, states[|steps|].store.value)];
    states', steps' := Extend(states', steps', Commit(0));
  }

  /** One undisturbed reconcile makes the update that is due. */
  lemma ReconcileOnce(states: seq<State>, steps: seq<Step>, me: Node, f: Findings, w: Write)
    returns (states': seq<State>, steps': seq<Step>)
    requires IsRun(states, steps) && states[|steps|].tasks == map[] && states[|steps|].store.Some?
    requires Due(w, states[|steps|].store.value, me, me in states[|steps|].remembering, f)
    requires Mutate(w, states[|steps|].store.value).Some?
    ensures IsRun(states', steps') && states <= states'
    ensures states'[|steps'|].tasks == map[]
    ensures states'[|steps'|].store == Stored(Mutate(w, states[|steps|].store.value).value)
  {
    DecidesWhatIsDue(states[|steps|].store.value, me, me in states[|steps|].remembering, f);
    states', steps' := Extend(states, steps, StartReconcile(0, me));
    states', steps' := Extend(states', steps', DecideNow(0, f));
    states', steps' := Carry(states', steps', me, w);
  }

  const Fine := Findings(false, false, true, false, false, false, true, false, true)

  lemma AcceptInRun(states: seq<State>, steps: seq<Step>, me: Node)
    returns (states': seq<State>, steps': seq<Step>)
    requires IsRun(states, steps) && states[|steps|].tasks == map[] && states[|steps|].store.Some?
    requires var dd := states[|steps|].store.value; dd.phase.IsNew() && dd.finalizer && !dd.cancel && !dd.deleting
    ensures IsRun(states', steps') && states <= states' && states'[|steps'|].tasks == map[]
    ensures states'[|steps'|].store.Some?
    ensures var dd := states'[|steps'|].store.value;
            dd.phase.Prepared? && dd.finalizer && !dd.cancel && !dd.deleting && dd.acceptedByNode == me && dd.node == me
  {
    states', steps' := ReconcileOnce(states, steps, me, Fine, Accept(me));
    states', steps' := Extend(states', steps', PodEvent(0, me, true));
    states', steps' := Carry(states', steps', me, MarkPrepared(me));
  }

  lemma CompleteInRun(states: seq<State>, steps: seq<Step>, me: Node)
    returns (states': seq<State>, steps': seq<Step>)
    requires IsRun(states, steps) && states[|steps|].tasks == map[] && states[|steps|].store.Some?
    requires var dd := states[|steps|].store.value;
             dd.phase.Prepared? && dd.finalizer && !dd.cancel && !dd.deleting && dd.acceptedByNode == me && dd.node == me
    ensures IsRun(states', steps') && states <= states' && states'[|steps'|].store.Some?
    ensures var dd := states'[|steps'|].store.value;
            dd.phase.Completed? && !dd.finalizer && dd.acceptedByNode == me && dd.node == me
  {
    states', steps' := ReconcileOnce(states, steps, me, Fine, MarkInProgress);
    states', steps' := Extend(states', steps', StartUpdate(0, me, MarkCompleted));
    states', steps' := Carry(states', steps', me, MarkCompleted);
    states', steps' := ReconcileOnce(states', steps', me, Fine, RemoveFinalizer);
  }

  /** From any new object that is neither cancelled nor being deleted, undisturbed reconciles of one node with a running
      pod and a data path that ends well lead to Completed. */
  lemma NewDownloadCanComplete(s: State, me: Node) returns (states: seq<State>, steps: seq<Step>)
    requires Init(s) && !s.store.value.cancel && !s.store.value.deleting
    ensures IsRun(states, steps) && states[0] == s
    ensures states[|steps|].store.Some? && states[|steps|].store.value.phase.Completed?
    ensures states[|steps|].store.value.acceptedByNode == me && states[|steps|].store.value.node == me
    ensures !states[|steps|].store.value.finalizer
  {
    states, steps := [s], [];
    if !s.store.value.finalizer {
      states, steps := ReconcileOnce(states, steps, me, Fine, AddFinalizer);
    }
    states, steps := AcceptInRun(states, steps, me);
    states, steps := CompleteInRun(states, steps, me);
  }
}
