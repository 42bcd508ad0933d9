/**
 What running a restored pod's exec hooks amounts to, as a state machine over the pod's events.

 Whether a hook has expired when its turn comes, and whether its command fails, is asked at most once for each hook; an
 oracle gives the answers. The list of events may end anywhere, which is also how a timeout of the watch looks.
 */
module HookRuns {
  import opened HookTracking

  datatype Hook = Hook(name: string, source: string, container: string, index: nat, failOnError: bool,
                       waitForReady: bool)

  datatype ContainerStatus = ContainerStatus(name: string, running: bool, ready: bool)

  datatype Event = NotAPod | PodDeleted | PodSeen(ended: bool, convertible: bool, statuses: seq<ContainerStatus>)

  /** The answers for a hook, given by its container and its position in the container's list. */
  datatype Oracle = Oracle(expired: (string, nat) -> bool, fails: (string, nat) -> bool)

  datatype Pod = Pod(namespace: string, name: string, containers: seq<string>)

  type Hooks = map<string, seq<Hook>>

  function KeyOf(pod: Pod, h: Hook): HookKey {
    HookKey(pod.namespace, pod.name, "", h.name, h.source, h.container, h.index)
  }

  /** A key tells the pod, the hook's name and source, its container and its place. */
  lemma WhatAKeyTells(pod: Pod, h: Hook, pod': Pod, h': Hook)
    ensures KeyOf(pod, h) == KeyOf(pod', h') <==>
              && pod.namespace == pod'.namespace && pod.name == pod'.name
              && h.name == h'.name && h.source == h'.source && h.container == h'.container && h.index == h'.index
    ensures KeyOf(pod, h).podNamespace == pod.namespace && KeyOf(pod, h).podName == pod.name
    ensures KeyOf(pod, h).container == h.container && KeyOf(pod, h).hookSource == h.source
  {
  }

  ghost function KeysOf(pod: Pod, all: Hooks): set<HookKey> {
    set c, i | c in all && 0 <= i < |all[c]| :: KeyOf(pod, all[c][i])
  }

  // ----- One hook -----

  /** The turn of a hook: an attempt at running its command. */
  datatype Attempt = Attempt(container: string, position: nat, hook: Hook)

  predicate Expired(o: Oracle, a: Attempt) {
    o.expired(a.container, a.position)
  }

  predicate CommandFails(o: Oracle, a: Attempt) {
    o.fails(a.container, a.position)
  }

  /** Expiry keeps a command from being run only if the hook's error mode is Fail. */
  predicate IsRun(o: Oracle, a: Attempt) {
    !(Expired(o, a) && a.hook.failOnError)
  }

  predicate Fails(o: Oracle, a: Attempt) {
    Expired(o, a) || CommandFails(o, a)
  }

  /** After this hook no other is attempted. */
  predicate EndsAll(o: Oracle, a: Attempt) {
    Fails(o, a) && a.hook.failOnError
  }

  // ----- What attempts leave behind -----

  function Executions(o: Oracle, attempts: seq<Attempt>): seq<(string, nat)> {
    if attempts == [] then []
    else
      var last := attempts[|attempts| - 1];
      Executions(o, attempts[..|attempts| - 1]) + if IsRun(o, last) then [(last.container, last.position)] else []
  }

  /** An expired hook whose command is run and fails brings two errors. */
  function ErrorsOf(pod: Pod, o: Oracle, a: Attempt): seq<HookKey> {
    (if Expired(o, a) then [KeyOf(pod, a.hook)] else [])
    + if IsRun(o, a) && CommandFails(o, a) then [KeyOf(pod, a.hook)] else []
  }

  function Errors(pod: Pod, o: Oracle, attempts: seq<Attempt>): seq<HookKey> {
    if attempts == [] then []
    else Errors(pod, o, attempts[..|attempts| - 1]) + ErrorsOf(pod, o, attempts[|attempts| - 1])
  }

  function StatusesAfter(pod: Pod, o: Oracle, before: Statuses, attempts: seq<Attempt>): Statuses {
    if attempts == [] then before
    else
      var last := attempts[|attempts| - 1];
      Recorded(StatusesAfter(pod, o, before, attempts[..|attempts| - 1]), KeyOf(pod, last.hook), Fails(o, last))
  }

  /** The hooks never attempted are failures. */
  function FailAll(pod: Pod, m: Statuses, unrun: seq<Attempt>): Statuses {
    if unrun == [] then m
    else Recorded(FailAll(pod, m, unrun[..|unrun| - 1]), KeyOf(pod, unrun[|unrun| - 1].hook), true)
  }

  function AllErrors(pod: Pod, o: Oracle, attempts: seq<Attempt>, unrun: seq<Attempt>): seq<HookKey> {
    Errors(pod, o, attempts) + seq(|unrun|, i requires 0 <= i < |unrun| => KeyOf(pod, unrun[i].hook))
  }

  // ----- The state machine -----

  /** The containers whose hooks have not all been run, the attempts so far, and whether the watch is over. */
  datatype RunState = RunState(waiting: set<string>, attempts: seq<Attempt>, cancelled: bool)

  function At(hooks: seq<Hook>, c: string, i: nat): Attempt
    requires i < |hooks|
  {
    Attempt(c, i, hooks[i])
  }

  function FirstAttempts(hooks: seq<Hook>, c: string, n: nat): seq<Attempt>
    requires n <= |hooks|
  {
    seq(n, i requires 0 <= i < n => At(hooks, c, i))
  }

  /** How many hooks are attempted from the `i`-th on: up to the first that ends everything. */
  function CutFrom(o: Oracle, hooks: seq<Hook>, c: string, i: nat): (n: nat)
    requires i <= |hooks|
    ensures i <= n <= |hooks|
    ensures forall j | i <= j < n - 1 :: !EndsAll(o, At(hooks, c, j))
    ensures n < |hooks| ==> i < n && EndsAll(o, At(hooks, c, n - 1))
    decreases |hooks| - i
  {
    if i == |hooks| then i
    else if EndsAll(o, At(hooks, c, i)) then i + 1
    else CutFrom(o, hooks, c, i + 1)
  }

  function Cut(o: Oracle, hooks: seq<Hook>, c: string): nat {
    CutFrom(o, hooks, c, 0)
  }

  predicate HasEnd(o: Oracle, hooks: seq<Hook>, c: string) {
    exists i :: 0 <= i < |hooks| && EndsAll(o, At(hooks, c, i))
  }

  lemma EndIsAtTheCut(o: Oracle, hooks: seq<Hook>, c: string)
    ensures HasEnd(o, hooks, c) <==> Cut(o, hooks, c) > 0 && EndsAll(o, At(hooks, c, Cut(o, hooks, c) - 1))
  {
    if i :| 0 <= i < |hooks| && EndsAll(o, At(hooks, c, i)) {
      assert i >= Cut(o, hooks, c) - 1;
    }
  }

  /** The container leaves the map unless one of its hooks ends everything. */
  function RunOne(o: Oracle, all: Hooks, s: RunState, c: string): RunState
    requires c in all
  {
    RunState(if HasEnd(o, all[c], c) then s.waiting else s.waiting - {c},
             s.attempts + FirstAttempts(all[c], c, Cut(o, all[c], c)),
             HasEnd(o, all[c], c))
  }

  function RunBatch(o: Oracle, all: Hooks, s: RunState, batch: seq<string>): RunState
    requires forall c | c in batch :: c in all
  {
    if batch == [] then s
    else
      var t := RunBatch(o, all, s, batch[..|batch| - 1]);
      if t.cancelled then t else RunOne(o, all, t, batch[|batch| - 1])
  }

  predicate Up(statuses: seq<ContainerStatus>, name: string, waitForReady: bool) {
    if statuses == [] then false
    else if statuses[0].name != name then Up(statuses[1..], name, waitForReady)
    else if waitForReady then statuses[0].ready
    else statuses[0].running
  }

  /** The first status of the container tells. */
  lemma {:induction false} WhatUpMeans(statuses: seq<ContainerStatus>, name: string, waitForReady: bool)
    ensures Up(statuses, name, waitForReady) <==>
              exists i :: 0 <= i < |statuses| && statuses[i].name == name
                          && (forall j | 0 <= j < i :: statuses[j].name != name)
                          && (if waitForReady then statuses[i].ready else statuses[i].running)
  {
    if statuses != [] && statuses[0].name != name {
      var rest := statuses[1..];
      assert forall i | 1 <= i < |statuses| :: statuses[i] == rest[i - 1];
      WhatUpMeans(rest, name, waitForReady);
      if Up(rest, name, waitForReady) {
        var i :| 0 <= i < |rest| && rest[i].name == name && (forall j | 0 <= j < i :: rest[j].name != name)
                 && (if waitForReady then rest[i].ready else rest[i].running);
        assert statuses[i + 1].name == name;
      }
    }
  }

  predicate WaitsForReady(hooks: seq<Hook>) {
    exists i :: 0 <= i < |hooks| && hooks[i].waitForReady
  }

  function UpOf(all: Hooks, statuses: seq<ContainerStatus>, waiting: set<string>): set<string> {
    set c | c in waiting && c in all && Up(statuses, c, WaitsForReady(all[c]))
  }

  ghost predicate NoRepeats<T>(s: seq<T>) {
    forall i, j | 0 <= i < j < |s| :: s[i] != s[j]
  }

  /** The containers of `up` in the order in which the map is ranged over, which may stop when all is ended. */
  ghost predicate IsBatch(o: Oracle, all: Hooks, s: RunState, up: set<string>, batch: seq<string>) {
    && NoRepeats(batch) && (forall c | c in batch :: c in up && c in all)
    && (RunBatch(o, all, s, batch).cancelled || forall c | c in up :: c in batch)
  }

  /** With nothing left to wait for, the watch is over. */
  function Finished(s: RunState): RunState {
    if s.waiting == {} then s.(cancelled := true) else s
  }

  ghost predicate EventStep(o: Oracle, all: Hooks, event: Event, s: RunState, s': RunState) {
    match event
    case NotAPod => s' == s
    case PodDeleted => s' == s.(cancelled := true)
    case PodSeen(ended, convertible, statuses) =>
      var up := UpOf(all, statuses, s.waiting);
      if ended || (!convertible && up != {}) then s' == s.(cancelled := true)
      else exists batch | IsBatch(o, all, s, up, batch) :: BatchStep(o, all, s, batch, s')
  }

  ghost predicate BatchStep(o: Oracle, all: Hooks, s: RunState, batch: seq<string>, s': RunState)
    requires forall c | c in batch :: c in all
  {
    var t := RunBatch(o, all, s, batch);
    s' == if t.cancelled then t else Finished(t)
  }

  /** A run sees the events one by one and none after the watch is over. */
  ghost predicate IsHookRun(o: Oracle, all: Hooks, events: seq<Event>, run: seq<RunState>) {
    && 1 <= |run| <= |events| + 1
    && run[0] == RunState(all.Keys, [], false)
    && (forall e | 0 <= e < |run| - 1 :: !run[e].cancelled && EventStep(o, all, events[e], run[e], run[e + 1]))
    && (run[|run| - 1].cancelled || |run| == |events| + 1)
  }

  function Last(run: seq<RunState>): RunState
    requires run != []
  {
    run[|run| - 1]
  }

  // ----- Each container's hooks in order -----

  /** The attempts in container `c`. */
  function Only(attempts: seq<Attempt>, c: string): (r: seq<Attempt>) {
    if attempts == [] then []
    else
      var last := attempts[|attempts| - 1];
      Only(attempts[..|attempts| - 1], c) + if last.container == c then [last] else []
  }

  lemma {:induction false} OnlyMembers(attempts: seq<Attempt>, c: string, a: Attempt)
    ensures a in Only(attempts, c) <==> a in attempts && a.container == c
  {
    if attempts != [] {
      var front := attempts[..|attempts| - 1];
      assert attempts == front + [attempts[|attempts| - 1]];
      OnlyMembers(front, c, a);
    }
  }

  lemma {:induction false} OnlyOfJoin(a: seq<Attempt>, b: seq<Attempt>, c: string)
    ensures Only(a + b, c) == Only(a, c) + Only(b, c)
  {
    if b == [] {
      assert a + b == a;
    } else {
      assert (a + b)[..|a + b| - 1] == a + b[..|b| - 1];
      OnlyOfJoin(a, b[..|b| - 1], c);
    }
  }

  lemma OnlyOfLast(front: seq<Attempt>, last: Attempt, c: string)
    ensures Only(front + [last], c) == Only(front, c) + if last.container == c then [last] else []
  {
    assert (front + [last])[..|front|] == front;
  }

  lemma {:induction false} OnlyOfFirst(hooks: seq<Hook>, c: string, n: nat, d: string)
    requires n <= |hooks|
    ensures Only(FirstAttempts(hooks, c, n), d) == if c == d then FirstAttempts(hooks, c, n) else []
  {
    if n > 0 {
      var front, last := FirstAttempts(hooks, c, n - 1), At(hooks, c, n - 1);
      OnlyOfFirst(hooks, c, n - 1, d);
      assert FirstAttempts(hooks, c, n) == front + [last];
      OnlyOfLast(front, last, d);
    }
  }

  /** None of the container's hooks was attempted, or all were up to the first that ends everything. */
  ghost predicate InOrder(o: Oracle, all: Hooks, s: RunState, c: string)
    requires c in all
  {
    var done := FirstAttempts(all[c], c, Cut(o, all[c], c));
    && (c in s.waiting ==> Only(s.attempts, c) == [] || (s.cancelled && HasEnd(o, all[c], c) && Only(s.attempts, c) == done))
    && (c !in s.waiting ==> !HasEnd(o, all[c], c) && Only(s.attempts, c) == done)
  }

  ghost predicate Orderly(o: Oracle, all: Hooks, s: RunState) {
    && s.waiting <= all.Keys
    && (forall a | a in s.attempts :: a.container in all)
    && (forall c {:trigger InOrder(o, all, s, c)} | c in all :: InOrder(o, all, s, c))
  }

  lemma RunOneIsOrderly(o: Oracle, all: Hooks, s: RunState, c: string)
    requires Orderly(o, all, s) && !s.cancelled && c in s.waiting
    ensures Orderly(o, all, RunOne(o, all, s, c))
  {
    var s' := RunOne(o, all, s, c);
    forall d | d in all
      ensures InOrder(o, all, s', d)
    {
      assert InOrder(o, all, s, d);
      RunOneAttempts(o, all, s, c, d);
    }
    forall a | a in s'.attempts
      ensures a.container in all
    {
      if a !in s.attempts {
        RunOneAttempts(o, all, s, c, a.container);
        OnlyMembers(s.attempts, a.container, a);
        OnlyMembers(s'.attempts, a.container, a);
      }
    }
  }

  lemma RunOneAttempts(o: Oracle, all: Hooks, s: RunState, c: string, d: string)
    requires c in all
    ensures Only(RunOne(o, all, s, c).attempts, d) ==
            Only(s.attempts, d) + if c == d then FirstAttempts(all[c], c, Cut(o, all[c], c)) else []
  {
    OnlyOfJoin(s.attempts, FirstAttempts(all[c], c, Cut(o, all[c], c)), d);
    OnlyOfFirst(all[c], c, Cut(o, all[c], c), d);
  }

  lemma {:induction false} RunBatchIsOrderly(o: Oracle, all: Hooks, s: RunState, batch: seq<string>)
    requires Orderly(o, all, s) && !s.cancelled && NoRepeats(batch) && forall c | c in batch :: c in s.waiting
    ensures Orderly(o, all, RunBatch(o, all, s, batch))
    ensures var t := RunBatch(o, all, s, batch);
            && s.attempts <= t.attempts
            && forall c | c in s.waiting && c !in batch :: c in t.waiting
  {
    if batch != [] {
      var front, last := batch[..|batch| - 1], batch[|batch| - 1];
      RunBatchIsOrderly(o, all, s, front);
      var t := RunBatch(o, all, s, front);
      if !t.cancelled {
        assert last !in front;
        RunOneIsOrderly(o, all, t, last);
      }
    }
  }

  lemma StepIsOrderly(o: Oracle, all: Hooks, event: Event, s: RunState, s': RunState)
    requires Orderly(o, all, s) && !s.cancelled && EventStep(o, all, event, s, s')
    ensures Orderly(o, all, s') && s.attempts <= s'.attempts
  {
    if event.PodSeen? && !event.ended && (event.convertible || UpOf(all, event.statuses, s.waiting) == {}) {
      var batch :| IsBatch(o, all, s, UpOf(all, event.statuses, s.waiting), batch) && BatchStep(o, all, s, batch, s');
      RunBatchIsOrderly(o, all, s, batch);
      var t := RunBatch(o, all, s, batch);
      if !t.cancelled {
        CancelIsOrderly(o, all, t);
      }
    } else {
      CancelIsOrderly(o, all, s);
    }
  }

  lemma CancelIsOrderly(o: Oracle, all: Hooks, s: RunState)
    requires Orderly(o, all, s) && !s.cancelled
    ensures Orderly(o, all, s.(cancelled := true))
  {
    forall c | c in all
      ensures InOrder(o, all, s.(cancelled := true), c)
    {
      assert InOrder(o, all, s, c);
    }
  }

  lemma {:induction false} RunIsOrderly(o: Oracle, all: Hooks, events: seq<Event>, run: seq<RunState>, e: nat)
    requires IsHookRun(o, all, events, run) && e < |run|
    ensures Orderly(o, all, run[e])
    ensures forall d | 0 <= d <= e :: run[d].attempts <= run[e].attempts
  {
    if e == 0 {
      assert forall c | c in all :: InOrder(o, all, run[0], c);
    } else {
      RunIsOrderly(o, all, events, run, e - 1);
      assert EventStep(o, all, events[e - 1], run[e - 1], run[e - 1 + 1]);
      StepIsOrderly(o, all, events[e - 1], run[e - 1], run[e]);
    }
  }

  lemma OnlyOfPrefix(a: seq<Attempt>, b: seq<Attempt>, c: string)
    requires a <= b
    ensures Only(a, c) <= Only(b, c)
  {
    assert b == a + b[|a|..];
    OnlyOfJoin(a, b[|a|..], c);
  }

  // ----- A container that is seen up -----

  /** All of the container's hooks were attempted, up to the first that ends everything. */
  ghost predicate AllAttempted(o: Oracle, all: Hooks, attempts: seq<Attempt>, c: string)
    requires c in all
  {
    Only(attempts, c) == FirstAttempts(all[c], c, Cut(o, all[c], c))
  }

  ghost predicate EndedBy(o: Oracle, all: Hooks, attempts: seq<Attempt>, d: string) {
    d in all && HasEnd(o, all[d], d) && AllAttempted(o, all, attempts, d)
  }

  lemma {:induction false} BatchAttemptsAll(o: Oracle, all: Hooks, s: RunState, batch: seq<string>)
    requires Orderly(o, all, s) && !s.cancelled && NoRepeats(batch) && forall c | c in batch :: c in s.waiting
    ensures var t := RunBatch(o, all, s, batch);
            if t.cancelled then exists d :: d in batch && EndedBy(o, all, t.attempts, d)
            else forall c | c in batch :: c !in t.waiting
  {
    if batch != [] {
      var front, last := batch[..|batch| - 1], batch[|batch| - 1];
      assert batch == front + [last] && last !in front;
      BatchAttemptsAll(o, all, s, front);
      RunBatchIsOrderly(o, all, s, front);
      var t := RunBatch(o, all, s, front);
      if t.cancelled {
        var d :| d in front && EndedBy(o, all, t.attempts, d);
        assert d in batch;
      } else {
        assert InOrder(o, all, t, last);
        RunOneAttempts(o, all, t, last, last);
        assert HasEnd(o, all[last], last) ==> EndedBy(o, all, RunOne(o, all, t, last).attempts, last);
      }
    }
  }

  lemma AttemptedStays(o: Oracle, all: Hooks, events: seq<Event>, run: seq<RunState>, e: nat, c: string)
    requires IsHookRun(o, all, events, run) && e < |run|
    requires c in all && AllAttempted(o, all, run[e].attempts, c)
    ensures AllAttempted(o, all, Last(run).attempts, c)
  {
    RunIsOrderly(o, all, events, run, |run| - 1);
    OnlyOfPrefix(run[e].attempts, Last(run).attempts, c);
    assert InOrder(o, all, Last(run), c);
  }

  /**
   A container seen up while the handler still waits for it has its hooks run in list order, up to the first that ends
   everything; unless those of another container that came up with it ended everything first.
   */
  lemma SeenUpIsRun(o: Oracle, all: Hooks, events: seq<Event>, run: seq<RunState>, e: nat, c: string)
    requires IsHookRun(o, all, events, run) && e < |run| - 1
    requires events[e].PodSeen? && !events[e].ended && events[e].convertible
    requires c in UpOf(all, events[e].statuses, run[e].waiting)
    ensures || AllAttempted(o, all, Last(run).attempts, c)
            || exists d :: d != c && d in UpOf(all, events[e].statuses, run[e].waiting)
                           && EndedBy(o, all, Last(run).attempts, d)
  {
    RunIsOrderly(o, all, events, run, e);
    assert EventStep(o, all, events[e], run[e], run[e + 1]);
    var up := UpOf(all, events[e].statuses, run[e].waiting);
    var batch :| IsBatch(o, all, run[e], up, batch) && BatchStep(o, all, run[e], batch, run[e + 1]);
    BatchAttemptsAll(o, all, run[e], batch);
    RunBatchIsOrderly(o, all, run[e], batch);
    var t := RunBatch(o, all, run[e], batch);
    assert run[e + 1].attempts == t.attempts;
    if t.cancelled {
      var d :| d in batch && EndedBy(o, all, t.attempts, d);
      AttemptedStays(o, all, events, run, e + 1, d);
      assert EndedBy(o, all, Last(run).attempts, d);
    } else {
      assert c in batch && InOrder(o, all, t, c);
      assert AllAttempted(o, all, t.attempts, c);
      AttemptedStays(o, all, events, run, e + 1, c);
    }
  }

  /** The hook's failure ends everything: its error mode is Fail, and it has expired or its command fails. */
  predicate IsFatal(o: Oracle, all: Hooks, c: string, i: nat) {
    c in all && i < |all[c]| && all[c][i].failOnError && (o.expired(c, i) || o.fails(c, i))
  }

  lemma UpToTheFirstFatal(o: Oracle, all: Hooks, attempts: seq<Attempt>, c: string, i: nat)
    requires c in all && i < |all[c]| && AllAttempted(o, all, attempts, c)
    ensures At(all[c], c, i) in attempts <==> forall j: nat | j < i :: !IsFatal(o, all, c, j)
  {
    var n := Cut(o, all[c], c);
    var a := At(all[c], c, i);
    OnlyMembers(attempts, c, a);
    assert forall j: nat | j < |all[c]| :: IsFatal(o, all, c, j) <==> EndsAll(o, At(all[c], c, j));
    if i < n {
      assert FirstAttempts(all[c], c, n)[i] == a;
    } else {
      assert IsFatal(o, all, c, n - 1);
    }
  }

  /**
   Hook by hook: when a container is seen up while the handler waits for it, a hook of it is attempted exactly if none
   before it in the list is fatal; unless a fatal hook was attempted in another container that came up with it.
   */
  lemma SeenUpHooksAttempted(o: Oracle, all: Hooks, events: seq<Event>, run: seq<RunState>, e: nat, c: string)
    requires IsHookRun(o, all, events, run) && e < |run| - 1
    requires events[e].PodSeen? && !events[e].ended && events[e].convertible
    requires c in all && c in run[e].waiting && Up(events[e].statuses, c, WaitsForReady(all[c]))
    ensures || (forall i: nat | i < |all[c]| ::
                  At(all[c], c, i) in Last(run).attempts <==> forall j: nat | j < i :: !IsFatal(o, all, c, j))
            || exists d, i: nat :: d != c && d in UpOf(all, events[e].statuses, run[e].waiting)
                                   && IsFatal(o, all, d, i) && At(all[d], d, i) in Last(run).attempts
  {
    var attempts := Last(run).attempts;
    SeenUpIsRun(o, all, events, run, e, c);
    if AllAttempted(o, all, attempts, c) {
      forall i: nat | i < |all[c]|
        ensures At(all[c], c, i) in attempts <==> forall j: nat | j < i :: !IsFatal(o, all, c, j)
      {
        UpToTheFirstFatal(o, all, attempts, c, i);
      }
    } else {
      var d :| d != c && d in UpOf(all, events[e].statuses, run[e].waiting) && EndedBy(o, all, attempts, d);
      var n := Cut(o, all[d], d) - 1;
      EndIsAtTheCut(o, all[d], d);
      assert IsFatal(o, all, d, n);
      UpToTheFirstFatal(o, all, attempts, d, n);
    }
  }

  // ----- When the watch ends -----

  lemma BatchEnds(o: Oracle, all: Hooks, s: RunState, batch: seq<string>)
    requires !s.cancelled && forall c | c in batch :: c in all
    ensures var t := RunBatch(o, all, s, batch);
            && s.attempts <= t.attempts
            && (t.cancelled <==> exists a :: a in t.attempts[|s.attempts|..] && EndsAll(o, a))
  {
    if batch != [] {
      var front, c := batch[..|batch| - 1], batch[|batch| - 1];
      BatchEnds(o, all, s, front);
      var t := RunBatch(o, all, s, front);
      if !t.cancelled {
        var first := FirstAttempts(all[c], c, Cut(o, all[c], c));
        assert (t.attempts + first)[|s.attempts|..] == t.attempts[|s.attempts|..] + first;
        EndIsAtTheCut(o, all[c], c);
        if HasEnd(o, all[c], c) {
          assert first[|first| - 1] in first;
        }
      }
    }
  }

  /** The watch ends when the pod is gone, has ended or cannot be used, when a hook fails in error mode Fail, or when
      there is nothing left to wait for; and only then. */
  lemma WatchEndsExactly(o: Oracle, all: Hooks, event: Event, s: RunState, s': RunState)
    requires !s.cancelled && EventStep(o, all, event, s, s')
    ensures s.attempts <= s'.attempts
    ensures s'.cancelled <==>
              || event.PodDeleted?
              || (event.PodSeen? &&
                  (|| event.ended
                   || (!event.convertible && UpOf(all, event.statuses, s.waiting) != {})
                   || (exists a :: a in s'.attempts[|s.attempts|..] && a.hook.failOnError
                                   && (o.expired(a.container, a.position) || o.fails(a.container, a.position)))
                   || s'.waiting == {}))
  {
    if event.PodSeen? && !event.ended && (event.convertible || UpOf(all, event.statuses, s.waiting) == {}) {
      var batch :| IsBatch(o, all, s, UpOf(all, event.statuses, s.waiting), batch) && BatchStep(o, all, s, batch, s');
      BatchEnds(o, all, s, batch);
      forall a
        ensures EndsAll(o, a) <==>
                a.hook.failOnError && (o.expired(a.container, a.position) || o.fails(a.container, a.position))
      {
      }
    }
  }

  ghost predicate WasUp(all: Hooks, events: seq<Event>, run: seq<RunState>, e: nat, c: string) {
    && e < |events| && e < |run|
    && events[e].PodSeen? && !events[e].ended && events[e].convertible
    && c in UpOf(all, events[e].statuses, run[e].waiting)
  }

  lemma {:induction false} BatchAttemptsOnly(o: Oracle, all: Hooks, s: RunState, batch: seq<string>, a: Attempt)
    requires forall c | c in batch :: c in all
    requires a in RunBatch(o, all, s, batch).attempts
    ensures a in s.attempts || a.container in batch
  {
    if batch != [] {
      var front, last := batch[..|batch| - 1], batch[|batch| - 1];
      var t := RunBatch(o, all, s, front);
      if a in t.attempts {
        BatchAttemptsOnly(o, all, s, front, a);
      }
    }
  }

  /** And nothing is run in a container that was not seen up. */
  lemma {:induction false} AttemptedWasUp(o: Oracle, all: Hooks, events: seq<Event>, run: seq<RunState>, n: nat,
      a: Attempt)
    requires IsHookRun(o, all, events, run) && n < |run| && a in run[n].attempts
    ensures exists e :: 0 <= e < n && WasUp(all, events, run, e, a.container)
  {
    if n > 0 {
      assert EventStep(o, all, events[n - 1], run[n - 1], run[n - 1 + 1]);
      if a in run[n - 1].attempts {
        AttemptedWasUp(o, all, events, run, n - 1, a);
      } else {
        var up := UpOf(all, events[n - 1].statuses, run[n - 1].waiting);
        var batch :| IsBatch(o, all, run[n - 1], up, batch) && BatchStep(o, all, run[n - 1], batch, run[n]);
        BatchAttemptsOnly(o, all, run[n - 1], batch, a);
        assert WasUp(all, events, run, n - 1, a.container);
      }
    }
  }

  // ----- Which commands are run -----

  predicate IsAttempt(all: Hooks, a: Attempt) {
    a.container in all && a.position < |all[a.container]| && a.hook == all[a.container][a.position]
  }

  lemma {:induction false} NoRepeatsByContainer(attempts: seq<Attempt>)
    requires forall c :: NoRepeats(Only(attempts, c))
    ensures NoRepeats(attempts)
  {
    if attempts != [] {
      var front, last := attempts[..|attempts| - 1], attempts[|attempts| - 1];
      forall c
        ensures NoRepeats(Only(front, c))
      {
        OnlyOfPrefix(front, attempts, c);
        assert NoRepeats(Only(attempts, c));
      }
      NoRepeatsByContainer(front);
      var mine := Only(front, last.container);
      assert Only(attempts, last.container) == mine + [last];
      assert NoRepeats(mine + [last]);
      forall k | 0 <= k < |mine|
        ensures mine[k] != last
      {
        assert (mine + [last])[k] != (mine + [last])[|mine|];
      }
      forall i | 0 <= i < |front|
        ensures front[i] != last
      {
        OnlyMembers(front, last.container, front[i]);
      }
    }
  }

  /** Every attempt is at a hook of the run's, and at each at most once. */
  lemma AttemptsAreDistinct(o: Oracle, all: Hooks, s: RunState)
    requires Orderly(o, all, s)
    ensures NoRepeats(s.attempts) && forall a | a in s.attempts :: IsAttempt(all, a)
  {
    forall a | a in s.attempts
      ensures IsAttempt(all, a)
    {
      OnlyMembers(s.attempts, a.container, a);
      assert InOrder(o, all, s, a.container);
    }
    forall c
      ensures NoRepeats(Only(s.attempts, c))
    {
      NoneRepeatsIn(o, all, s, c);
    }
    NoRepeatsByContainer(s.attempts);
  }

  lemma NoneRepeatsIn(o: Oracle, all: Hooks, s: RunState, c: string)
    requires Orderly(o, all, s)
    ensures NoRepeats(Only(s.attempts, c))
  {
    if c in all {
      assert InOrder(o, all, s, c);
    } else {
      var mine := Only(s.attempts, c);
      forall i | 0 <= i < |mine|
        ensures mine[i].container in all && mine[i].container == c
      {
        OnlyMembers(s.attempts, c, mine[i]);
      }
    }
  }

  lemma {:induction false} RunMeansAttempted(o: Oracle, all: Hooks, attempts: seq<Attempt>, c: string, i: nat)
    requires forall a | a in attempts :: IsAttempt(all, a)
    requires c in all && i < |all[c]|
    ensures (c, i) in Executions(o, attempts) <==> At(all[c], c, i) in attempts && IsRun(o, At(all[c], c, i))
  {
    if attempts != [] {
      var front, last := attempts[..|attempts| - 1], attempts[|attempts| - 1];
      assert attempts == front + [last];
      RunMeansAttempted(o, all, front, c, i);
      assert IsAttempt(all, last);
    }
  }

  lemma {:induction false} ExecutionsAreDistinct(o: Oracle, all: Hooks, attempts: seq<Attempt>)
    requires NoRepeats(attempts) && forall a | a in attempts :: IsAttempt(all, a)
    ensures NoRepeats(Executions(o, attempts))
    ensures forall e | e in Executions(o, attempts) :: e.0 in all && e.1 < |all[e.0]|
  {
    if attempts != [] {
      var front, last := attempts[..|attempts| - 1], attempts[|attempts| - 1];
      assert attempts == front + [last] && last !in front && IsAttempt(all, last);
      ExecutionsAreDistinct(o, all, front);
      RunMeansAttempted(o, all, front, last.container, last.position);
    }
  }

  /** Every command is run at most once, and that of an attempted hook unless it had expired in error mode Fail. */
  lemma CommandsRunExactly(o: Oracle, all: Hooks, events: seq<Event>, run: seq<RunState>)
    requires IsHookRun(o, all, events, run)
    ensures NoRepeats(Executions(o, Last(run).attempts))
    ensures forall e | e in Executions(o, Last(run).attempts) :: e.0 in all && e.1 < |all[e.0]|
    ensures forall c, i: nat | c in all && i < |all[c]| && At(all[c], c, i) in Last(run).attempts ::
              (c, i) in Executions(o, Last(run).attempts) <==> !(o.expired(c, i) && all[c][i].failOnError)
    ensures forall c, i: nat | c in all && i < |all[c]| && At(all[c], c, i) !in Last(run).attempts ::
              (c, i) !in Executions(o, Last(run).attempts)
  {
    var attempts := Last(run).attempts;
    RunIsOrderly(o, all, events, run, |run| - 1);
    AttemptsAreDistinct(o, all, Last(run));
    ExecutionsAreDistinct(o, all, attempts);
    forall c, i: nat | c in all && i < |all[c]|
      ensures (c, i) in Executions(o, attempts) <==> At(all[c], c, i) in attempts && IsRun(o, At(all[c], c, i))
    {
      RunMeansAttempted(o, all, attempts, c, i);
    }
  }

  // ----- What is recorded -----

  ghost predicate IsFirstWith(pod: Pod, attempts: seq<Attempt>, k: HookKey, j: int) {
    && 0 <= j < |attempts| && KeyOf(pod, attempts[j].hook) == k
    && forall i | 0 <= i < j :: KeyOf(pod, attempts[i].hook) != k
  }

  ghost predicate HasKey(pod: Pod, attempts: seq<Attempt>, k: HookKey) {
    exists a :: a in attempts && KeyOf(pod, a.hook) == k
  }

  lemma {:induction false} FirstAttemptDecides(pod: Pod, o: Oracle, before: Statuses, attempts: seq<Attempt>, k: HookKey)
    requires k in before
    ensures var m := StatusesAfter(pod, o, before, attempts);
            && k in m
            && (before[k].hookExecuted || !HasKey(pod, attempts, k) ==> m[k] == before[k])
            && (!before[k].hookExecuted && HasKey(pod, attempts, k) ==>
                  exists j :: IsFirstWith(pod, attempts, k, j) && m[k] == HookStatus(Fails(o, attempts[j]), true))
  {
    if attempts != [] {
      var front, last := attempts[..|attempts| - 1], attempts[|attempts| - 1];
      assert attempts == front + [last];
      FirstAttemptDecides(pod, o, before, front, k);
      if !before[k].hookExecuted {
        if HasKey(pod, front, k) {
          var a :| a in front && KeyOf(pod, a.hook) == k;
          assert a in attempts;
          var m := StatusesAfter(pod, o, before, front);
          var j :| IsFirstWith(pod, front, k, j) && m[k] == HookStatus(Fails(o, front[j]), true);
          assert IsFirstWith(pod, attempts, k, j);
        } else if KeyOf(pod, last.hook) == k {
          assert forall i | 0 <= i < |front| :: front[i] in front;
          assert IsFirstWith(pod, attempts, k, |front|) && last in attempts;
        }
      }
    }
  }

  lemma {:induction false} FailAllDecides(pod: Pod, m: Statuses, unrun: seq<Attempt>, k: HookKey)
    requires k in m
    ensures var m' := FailAll(pod, m, unrun);
            && k in m'
            && m'[k] == if !m[k].hookExecuted && HasKey(pod, unrun, k) then HookStatus(true, true) else m[k]
  {
    if unrun != [] {
      var front, last := unrun[..|unrun| - 1], unrun[|unrun| - 1];
      assert unrun == front + [last];
      FailAllDecides(pod, m, front, k);
      if HasKey(pod, front, k) {
        var a :| a in front && KeyOf(pod, a.hook) == k;
        assert a in unrun;
      } else if KeyOf(pod, last.hook) == k {
        assert last in unrun;
      }
    }
  }

  /** `unrun` lists the hooks that were never attempted. */
  ghost predicate ListsUnrun(all: Hooks, attempts: seq<Attempt>, unrun: seq<Attempt>) {
    NoRepeats(unrun) && forall a :: a in unrun <==> IsAttempt(all, a) && a !in attempts
  }

  function Final(pod: Pod, o: Oracle, before: Statuses, attempts: seq<Attempt>, unrun: seq<Attempt>): Statuses {
    FailAll(pod, StatusesAfter(pod, o, before, attempts), unrun)
  }

  /** A key that was open is settled by the first attempt that carries it, and is a failure if there is none. */
  lemma KeySettledByFirstAttempt(pod: Pod, o: Oracle, all: Hooks, before: Statuses, attempts: seq<Attempt>,
      unrun: seq<Attempt>, k: HookKey)
    requires (forall a | a in attempts :: IsAttempt(all, a)) && ListsUnrun(all, attempts, unrun)
    requires k in before && !before[k].hookExecuted && k in KeysOf(pod, all)
    ensures var m := Final(pod, o, before, attempts, unrun);
            && k in m
            && if HasKey(pod, attempts, k)
               then exists j :: IsFirstWith(pod, attempts, k, j) && m[k] == HookStatus(Fails(o, attempts[j]), true)
               else m[k] == HookStatus(true, true)
  {
    FirstAttemptDecides(pod, o, before, attempts, k);
    FailAllDecides(pod, StatusesAfter(pod, o, before, attempts), unrun, k);
    if !HasKey(pod, attempts, k) {
      var c, i :| c in all && 0 <= i < |all[c]| && KeyOf(pod, all[c][i]) == k;
      var a := At(all[c], c, i);
      assert IsAttempt(all, a) && KeyOf(pod, a.hook) == k;
      assert a in unrun;
    }
  }

  /** What is not a key of the pod's hooks keeps its status, and so does what had been executed before. */
  lemma OthersKeepTheirStatus(pod: Pod, o: Oracle, all: Hooks, before: Statuses, attempts: seq<Attempt>,
      unrun: seq<Attempt>, k: HookKey)
    requires (forall a | a in attempts :: IsAttempt(all, a)) && ListsUnrun(all, attempts, unrun)
    requires k in before && (before[k].hookExecuted || k !in KeysOf(pod, all))
    ensures var m := Final(pod, o, before, attempts, unrun); k in m && m[k] == before[k]
  {
    FirstAttemptDecides(pod, o, before, attempts, k);
    FailAllDecides(pod, StatusesAfter(pod, o, before, attempts), unrun, k);
    if a :| a in attempts && KeyOf(pod, a.hook) == k {
      assert KeyOf(pod, all[a.container][a.position]) in KeysOf(pod, all);
    }
    if a :| a in unrun && KeyOf(pod, a.hook) == k {
      assert IsAttempt(all, a) && KeyOf(pod, all[a.container][a.position]) in KeysOf(pod, all);
    }
  }

  lemma {:induction false} SameKeys(pod: Pod, o: Oracle, before: Statuses, attempts: seq<Attempt>)
    ensures StatusesAfter(pod, o, before, attempts).Keys == before.Keys
  {
    if attempts != [] {
      SameKeys(pod, o, before, attempts[..|attempts| - 1]);
    }
  }

  lemma {:induction false} FailAllSameKeys(pod: Pod, m: Statuses, unrun: seq<Attempt>)
    ensures FailAll(pod, m, unrun).Keys == m.Keys
  {
    if unrun != [] {
      FailAllSameKeys(pod, m, unrun[..|unrun| - 1]);
    }
  }

  /** Afterwards exactly the registered hooks of the pod's containers have been recorded on top. */
  lemma EverythingRecorded(pod: Pod, o: Oracle, all: Hooks, before: Statuses, attempts: seq<Attempt>,
      unrun: seq<Attempt>)
    requires (forall a | a in attempts :: IsAttempt(all, a)) && ListsUnrun(all, attempts, unrun)
    ensures var m := Final(pod, o, before, attempts, unrun);
            m.Keys == before.Keys && Executed(m) == Executed(before) + KeysOf(pod, all) * before.Keys
  {
    var m := Final(pod, o, before, attempts, unrun);
    SameKeys(pod, o, before, attempts);
    FailAllSameKeys(pod, StatusesAfter(pod, o, before, attempts), unrun);
    forall k | k in before
      ensures k in Executed(m) <==> k in Executed(before) || k in KeysOf(pod, all)
    {
      if before[k].hookExecuted || k !in KeysOf(pod, all) {
        OthersKeepTheirStatus(pod, o, all, before, attempts, unrun, k);
      } else {
        KeySettledByFirstAttempt(pod, o, all, before, attempts, unrun, k);
      }
    }
  }

  ghost predicate OnlyBearer(pod: Pod, all: Hooks, c: string, i: nat)
    requires c in all && i < |all[c]|
  {
    forall a | IsAttempt(all, a) && KeyOf(pod, a.hook) == KeyOf(pod, all[c][i]) :: a == At(all[c], c, i)
  }

  /** A newly recorded hook is a failure exactly if it had expired, its command failed, or its turn never came. */
  lemma FailedExactly(pod: Pod, o: Oracle, all: Hooks, before: Statuses, events: seq<Event>, run: seq<RunState>,
      unrun: seq<Attempt>, c: string, i: nat)
    requires IsHookRun(o, all, events, run) && ListsUnrun(all, Last(run).attempts, unrun)
    requires c in all && i < |all[c]| && OnlyBearer(pod, all, c, i)
    requires KeyOf(pod, all[c][i]) in before && !before[KeyOf(pod, all[c][i])].hookExecuted
    ensures var m, k := Final(pod, o, before, Last(run).attempts, unrun), KeyOf(pod, all[c][i]);
            && k in m && m[k].hookExecuted
            && (m[k].hookFailed <==> o.expired(c, i) || o.fails(c, i) || At(all[c], c, i) !in Last(run).attempts)
  {
    var attempts, k, a := Last(run).attempts, KeyOf(pod, all[c][i]), At(all[c], c, i);
    RunIsOrderly(o, all, events, run, |run| - 1);
    AttemptsAreDistinct(o, all, Last(run));
    assert k in KeysOf(pod, all);
    KeySettledByFirstAttempt(pod, o, all, before, attempts, unrun, k);
    if HasKey(pod, attempts, k) {
      var m := Final(pod, o, before, attempts, unrun);
      var j :| IsFirstWith(pod, attempts, k, j) && m[k] == HookStatus(Fails(o, attempts[j]), true);
      assert attempts[j] in attempts && attempts[j] == a;
    } else {
      assert a in attempts ==> KeyOf(pod, a.hook) == k;
    }
  }

  // ----- An example -----

  lemma BatchOfOne(batch: seq<string>, c: string)
    requires NoRepeats(batch) && batch != [] && forall d | d in batch :: d == c
    ensures batch == [c]
  {
    forall j | 0 <= j < |batch|
      ensures batch[j] == c && j == 0
    {
      assert batch[j] in batch && batch[0] in batch;
    }
    assert batch[|batch| - 1] == c;
  }

  lemma OneContainerUp(o: Oracle, h: Hook, run: seq<RunState>)
    requires !h.waitForReady && o.expired("c", 0) && !o.fails("c", 0)
    requires IsHookRun(o, map["c" := [h]], [PodSeen(false, true, [ContainerStatus("c", true, true)])], run)
    ensures Last(run).attempts == [At([h], "c", 0)]
  {
    var all := map["c" := [h]];
    var events := [PodSeen(false, true, [ContainerStatus("c", true, true)])];
    assert |run| == 2;
    assert EventStep(o, all, events[0], run[0], run[0 + 1]);
    var up := UpOf(all, events[0].statuses, run[0].waiting);
    assert up == {"c"};
    var batch :| IsBatch(o, all, run[0], up, batch) && BatchStep(o, all, run[0], batch, run[1]);
    assert RunBatch(o, all, run[0], []) == run[0];
    BatchOfOne(batch, "c");
    assert Cut(o, [h], "c") == 1;
    assert Last(run).attempts == [] + FirstAttempts([h], "c", 1);
  }

  /** One expired hook in a container that is up: a failure, and yet its command is run unless the error mode is Fail. */
  lemma ExpiredHookIsRun(pod: Pod, o: Oracle, h: Hook, run: seq<RunState>, before: Statuses)
    requires !h.waitForReady && KeyOf(pod, h) in before && !before[KeyOf(pod, h)].hookExecuted
    requires o.expired("c", 0) && !o.fails("c", 0)
    requires IsHookRun(o, map["c" := [h]], [PodSeen(false, true, [ContainerStatus("c", true, true)])], run)
    ensures Executions(o, Last(run).attempts) == if h.failOnError then [] else [("c", 0)]
    ensures ListsUnrun(map["c" := [h]], Last(run).attempts, [])
    ensures KeyOf(pod, h) in FailedKeys(Final(pod, o, before, Last(run).attempts, []))
  {
    var a := At([h], "c", 0);
    OneContainerUp(o, h, run);
    KeyOfOne(pod, o, before, a);
  }

  lemma KeyOfOne(pod: Pod, o: Oracle, before: Statuses, a: Attempt)
    ensures StatusesAfter(pod, o, before, [a]) == Recorded(before, KeyOf(pod, a.hook), Fails(o, a))
    ensures Executions(o, [a]) == if IsRun(o, a) then [(a.container, a.position)] else []
  {
    assert [a][..0] == [];
  }
}
