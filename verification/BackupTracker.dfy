/** The in-memory tracker that the queue controller and the backup workers share. */
module BackupTracking {

  type Key = string

  /** The three sets as a value; the queue state machine steps over this. */
  datatype TrackerSets = TrackerSets(ready: set<Key>, inProgress: set<Key>, post: set<Key>) {

    function RunningCount(): nat {
      |inProgress| + |ready|
    }

    /** ReadyToStart entries are ignored on purpose: such a backup may still be deleted. */
    predicate Contains(k: Key) {
      k in inProgress || k in post
    }

    predicate Counts(k: Key) {
      k in ready || k in inProgress
    }

    predicate Tracks(k: Key) {
      k in ready || k in inProgress || k in post
    }

    predicate Disjoint() {
      ready !! inProgress && ready !! post && inProgress !! post
    }

    function AddReadyToStart(k: Key): TrackerSets {
      this.(ready := ready + {k})
    }

    function Add(k: Key): TrackerSets {
      this.(ready := ready - {k}, inProgress := inProgress + {k})
    }

    function AddPostProcessing(k: Key): TrackerSets {
      TrackerSets(ready - {k}, inProgress - {k}, post + {k})
    }

    function Delete(k: Key): TrackerSets {
      TrackerSets(ready - {k}, inProgress - {k}, post - {k})
    }
  }

  /** A slot is claimed once: only AddReadyToStart of an uncounted backup raises the count. */
  lemma AddReadyToStartClaimsOneSlot(t: TrackerSets, k: Key)
    ensures t.AddReadyToStart(k).RunningCount() <= t.RunningCount() + 1
    ensures !t.Counts(k) ==> t.AddReadyToStart(k).RunningCount() == t.RunningCount() + 1
  {
    if k in t.ready {
      assert t.ready + {k} == t.ready;
    }
  }

  /** Moving a backup along, or dropping it, never raises the count. */
  lemma MovingOnKeepsOrFreesTheSlot(t: TrackerSets, k: Key)
    ensures k in t.ready ==> t.Add(k).RunningCount() <= t.RunningCount()
    ensures t.Disjoint() && t.Counts(k) ==> t.Add(k).RunningCount() == t.RunningCount()
    ensures t.AddPostProcessing(k).RunningCount() <= t.RunningCount()
    ensures t.Delete(k).RunningCount() <= t.RunningCount()
    ensures t.Disjoint() && t.Counts(k) ==> t.Delete(k).RunningCount() == t.RunningCount() - 1
  {
    Removal(t.ready, k);
    Removal(t.inProgress, k);
    if k in t.inProgress {
      assert t.inProgress + {k} == t.inProgress;
    }
  }

  /** The sets stay apart, provided ReadyToStart is only recorded for a backup not tracked yet. */
  lemma SetsStayDisjoint(t: TrackerSets, k: Key)
    requires t.Disjoint()
    ensures !t.Tracks(k) ==> t.AddReadyToStart(k).Disjoint()
    ensures k in t.ready ==> t.Add(k).Disjoint()
    ensures t.AddPostProcessing(k).Disjoint() && t.Delete(k).Disjoint()
  {
  }

  lemma Removal(s: set<Key>, k: Key)
    ensures |s - {k}| == if k in s then |s| - 1 else |s|
  {
    if k !in s {
      assert s - {k} == s;
    }
  }

  class BackupTracker {
    var readyToStartBackups: set<Key>
    var inProgressBackups: set<Key>
    var postProgressBackups: set<Key>

    function View(): TrackerSets
      reads this
    {
      TrackerSets(readyToStartBackups, inProgressBackups, postProgressBackups)
    }

    constructor ()
      ensures View() == TrackerSets({}, {}, {})
    {
      readyToStartBackups, inProgressBackups, postProgressBackups := {}, {}, {};
    }

    method AddReadyToStart(k: Key)
      modifies this
      ensures View() == old(View()).AddReadyToStart(k)
      ensures readyToStartBackups == old(readyToStartBackups) + {k}
      ensures inProgressBackups == old(inProgressBackups) && postProgressBackups == old(postProgressBackups)
    {
      readyToStartBackups := readyToStartBackups + {k};
    }

    method Add(k: Key)
      modifies this
      ensures View() == old(View()).Add(k)
      ensures readyToStartBackups == old(readyToStartBackups) - {k}
      ensures inProgressBackups == old(inProgressBackups) + {k} && postProgressBackups == old(postProgressBackups)
    {
      readyToStartBackups := readyToStartBackups - {k};
      inProgressBackups := inProgressBackups + {k};
    }

    method AddPostProcessing(k: Key)
      modifies this
      ensures View() == old(View()).AddPostProcessing(k)
      ensures readyToStartBackups == old(readyToStartBackups) - {k}
      ensures inProgressBackups == old(inProgressBackups) - {k}
      ensures postProgressBackups == old(postProgressBackups) + {k}
    {
      readyToStartBackups := readyToStartBackups - {k};
      inProgressBackups := inProgressBackups - {k};
      postProgressBackups := postProgressBackups + {k};
    }

    method Delete(k: Key)
      modifies this
      ensures View() == old(View()).Delete(k)
      ensures readyToStartBackups == old(readyToStartBackups) - {k}
      ensures inProgressBackups == old(inProgressBackups) - {k}
      ensures postProgressBackups == old(postProgressBackups) - {k}
    {
      readyToStartBackups := readyToStartBackups - {k};
      inProgressBackups := inProgressBackups - {k};
      postProgressBackups := postProgressBackups - {k};
    }

    method Contains(k: Key) returns (found: bool)
      ensures found == View().Contains(k)
      ensures found <==> k in inProgressBackups || k in postProgressBackups
    {
      found := k in inProgressBackups || k in postProgressBackups;
    }

    method RunningCount() returns (count: nat)
      ensures count == View().RunningCount()
      ensures count == |inProgressBackups| + |readyToStartBackups|
    {
      count := |inProgressBackups| + |readyToStartBackups|;
    }
  }
}
