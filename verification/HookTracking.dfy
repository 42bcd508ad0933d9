/** Which hooks were attempted, executed and failed. */
module HookTracking {

  datatype HookKey = HookKey(podNamespace: string, podName: string, hookPhase: string, hookName: string,
                             hookSource: string, container: string, hookIndex: nat)

  datatype HookStatus = HookStatus(hookFailed: bool, hookExecuted: bool)

  type Statuses = map<HookKey, HookStatus>

  ghost function Executed(m: Statuses): set<HookKey> {
    set k | k in m && m[k].hookExecuted
  }

  ghost function FailedKeys(m: Statuses): set<HookKey> {
    set k | k in m && m[k].hookFailed
  }

  /** Only the first record of a registered hook has an effect. */
  function Recorded(m: Statuses, k: HookKey, failed: bool): Statuses {
    if k in m && !m[k].hookExecuted then m[k := HookStatus(failed, true)] else m
  }

  lemma RecordMarksOnce(m: Statuses, k: HookKey, failed: bool)
    requires k in m && (!m[k].hookExecuted ==> !m[k].hookFailed)
    ensures Executed(Recorded(m, k, failed)) == Executed(m) + {k}
    ensures FailedKeys(Recorded(m, k, failed)) ==
            FailedKeys(m) + if failed && !m[k].hookExecuted then {k} else {}
  {
  }

  lemma FirstRecordCounts(m: Statuses, k: HookKey, failed: bool)
    requires k in m && !m[k].hookExecuted && FailedKeys(m) <= Executed(m)
    ensures var m' := m[k := HookStatus(failed, true)];
            && |m'| == |m| && FailedKeys(m') <= Executed(m')
            && |Executed(m')| == |Executed(m)| + 1
            && |FailedKeys(m')| == |FailedKeys(m)| + if failed then 1 else 0
  {
    assert k !in Executed(m) && k !in FailedKeys(m);
    RecordMarksOnce(m, k, failed);
    assert m[k := HookStatus(failed, true)].Keys == m.Keys;
    assert |m[k := HookStatus(failed, true)]| == |m.Keys|;
  }

  class HookTracker {
    var tracker: Statuses
    var hookAttemptedCnt: nat
    var hookExecutedCnt: nat
    var hookFailedCnt: nat
    var hookErrs: seq<string>     // the namespace of each recorded failure

    /** The counters count what they say. */
    ghost predicate Valid()
      reads this
    {
      && hookAttemptedCnt == |tracker|
      && hookExecutedCnt == |Executed(tracker)|
      && hookFailedCnt == |FailedKeys(tracker)| == |hookErrs|
      && FailedKeys(tracker) <= Executed(tracker)
    }

    constructor ()
      ensures Valid() && tracker == map[]
    {
      tracker, hookAttemptedCnt, hookExecutedCnt, hookFailedCnt, hookErrs := map[], 0, 0, 0, [];
    }

    /** Registering a hook twice changes nothing. */
    method Add(k: HookKey)
      requires Valid()
      modifies this
      ensures Valid()
      ensures tracker == if k in old(tracker) then old(tracker) else old(tracker)[k := HookStatus(false, false)]
      ensures Executed(tracker) == Executed(old(tracker)) && tracker.Keys == old(tracker).Keys + {k}
    {
      if k !in tracker {
        ghost var was := tracker;
        tracker := tracker[k := HookStatus(false, false)];
        hookAttemptedCnt := hookAttemptedCnt + 1;
        assert Executed(tracker) == Executed(was) && FailedKeys(tracker) == FailedKeys(was);
      }
    }

    /** The first result of a registered hook counts; an unregistered one is an error. */
    method Record(k: HookKey, hookFailed: bool) returns (ok: bool)
      requires Valid()
      modifies this
      ensures Valid()
      ensures ok <==> k in tracker
      ensures tracker == Recorded(old(tracker), k, hookFailed)
    {
      if k !in tracker {
        return false;
      }
      if !tracker[k].hookExecuted {
        FirstRecordCounts(tracker, k, hookFailed);
        tracker := tracker[k := HookStatus(hookFailed, true)];
        hookExecutedCnt := hookExecutedCnt + 1;
        if hookFailed {
          hookFailedCnt := hookFailedCnt + 1;
          hookErrs := hookErrs + [k.podNamespace];
        }
      }
      return true;
    }

    method Stat() returns (attempted: nat, failed: nat)
      requires Valid()
      ensures attempted == |tracker| && failed == |FailedKeys(tracker)|
    {
      attempted, failed := hookAttemptedCnt, hookFailedCnt;
    }

    /** Complete means that every registered hook has been executed. */
    method IsComplete() returns (complete: bool)
      requires Valid()
      ensures complete <==> forall k | k in tracker :: tracker[k].hookExecuted
    {
      complete := hookAttemptedCnt == hookExecutedCnt;
      AllCounted(tracker);
    }
  }

  lemma AllCounted(m: Statuses)
    ensures |m| == |Executed(m)| <==> forall k | k in m :: m[k].hookExecuted
  {
    var rest := m.Keys - Executed(m);
    assert m.Keys == Executed(m) + rest;
    assert |m| == |m.Keys| == |Executed(m)| + |rest|;
    if |rest| == 0 {
      assert rest == {};
    }
    if k :| k in m && !m[k].hookExecuted {
      assert k in rest;
    }
  }
}
