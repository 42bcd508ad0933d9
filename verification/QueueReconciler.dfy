/** The queue controller's reconcile as it is written: lists, loops and patches. */
module QueueReconciler {
  import opened BackupPhases
  import opened BackupTracking
  import opened BackupQueue

  datatype Item = Item(name: Name, backup: Backup)

  /** What the API server returns for a list call: every backup once, in no particular order. */
  ghost predicate IsListing(api: Api, items: seq<Item>) {
    && (forall i, j | 0 <= i < j < |items| :: items[i].name != items[j].name)
    && (forall item :: item in items <==> item.name in api && api[item.name] == item.backup)
  }

  /** The same, for the backups the lister keeps. */
  ghost predicate IsFilteredListing(api: Api, items: seq<Item>) {
    && (forall i, j | 0 <= i < j < |items| :: items[i].name != items[j].name)
    && (forall item :: item in items <==> item.name in api && api[item.name] == item.backup && Listed(item.backup))
  }

  ghost predicate SortedByPosition(items: seq<Item>) {
    forall i, j | 0 <= i < j < |items| :: items[i].backup.queuePosition <= items[j].backup.queuePosition
  }

  function InsertByPosition(item: Item, items: seq<Item>): seq<Item> {
    if items == [] || item.backup.queuePosition <= items[0].backup.queuePosition then [item] + items
    else [items[0]] + InsertByPosition(item, items[1..])
  }

  lemma {:induction false} InsertPermutes(item: Item, items: seq<Item>)
    ensures multiset(InsertByPosition(item, items)) == multiset{item} + multiset(items)
    ensures forall x | x in InsertByPosition(item, items) :: x == item || x in items
  {
    if items != [] && item.backup.queuePosition > items[0].backup.queuePosition {
      var first, rest := items[0], items[1..];
      assert items == [first] + rest;
      InsertPermutes(item, rest);
    }
  }

  lemma {:induction false} InsertKeepsSorted(item: Item, items: seq<Item>)
    requires SortedByPosition(items)
    ensures SortedByPosition(InsertByPosition(item, items))
  {
    if items != [] && item.backup.queuePosition > items[0].backup.queuePosition {
      var first, rest := items[0], items[1..];
      InsertKeepsSorted(item, rest);
      InsertPermutes(item, rest);
      var inserted := InsertByPosition(item, rest);
      forall i | 0 <= i < |inserted|
        ensures first.backup.queuePosition <= inserted[i].backup.queuePosition
      {
        assert inserted[i] in inserted;
        assert inserted[i] == item || exists j :: 0 <= j < |rest| && rest[j] == inserted[i];
      }
    }
  }

  /** The library sort by queue position. */
  function SortByPosition(items: seq<Item>): (r: seq<Item>)
    ensures multiset(r) == multiset(items)
    ensures SortedByPosition(r)
  {
    if items == [] then [] else
      assert items == [items[0]] + items[1..];
      var rest := SortByPosition(items[1..]);
      InsertKeepsSorted(items[0], rest);
      InsertPermutes(items[0], rest);
      InsertByPosition(items[0], rest)
  }

  lemma PermutationKeepsListing(api: Api, items: seq<Item>, sorted: seq<Item>)
    requires IsFilteredListing(api, items) && multiset(sorted) == multiset(items)
    ensures IsFilteredListing(api, sorted)
  {
    forall item
      ensures item in sorted <==> item in items
    {
      assert item in sorted <==> item in multiset(sorted);
      assert item in items <==> item in multiset(items);
    }
    forall i, j | 0 <= i < j < |sorted|
      ensures sorted[i].name != sorted[j].name
    {
      if sorted[i].name == sorted[j].name {
        assert sorted[i] in items && sorted[j] in items && sorted[i] == sorted[j];
        TwiceMeansTwo(sorted, i, j);
        OnceMeansOne(items, sorted[i]);
        assert false;
      }
    }
  }

  lemma TwiceMeansTwo(items: seq<Item>, i: nat, j: nat)
    requires i < j < |items| && items[i] == items[j]
    ensures multiset(items)[items[i]] >= 2
  {
    assert items == items[..i] + [items[i]] + items[i + 1..j] + [items[j]] + items[j + 1..];
  }

  lemma {:induction false} OnceMeansOne(items: seq<Item>, item: Item)
    requires forall i, j | 0 <= i < j < |items| :: items[i].name != items[j].name
    ensures multiset(items)[item] <= 1
  {
    if items != [] {
      assert items == [items[0]] + items[1..];
      OnceMeansOne(items[1..], item);
      if items[0] == item {
        assert item !in items[1..];
      }
    }
  }

  class QueuedBackupsLister {
    var backups: seq<Item>

    constructor (all: seq<Item>, ghost api: Api)
      requires IsListing(api, all)
      ensures IsFilteredListing(api, backups)
    {
      var kept: seq<Item> := [];
      for i := 0 to |all|
        invariant forall a, b | 0 <= a < b < |kept| :: kept[a].name != kept[b].name
        invariant forall item :: item in kept <==> item in all[..i] && Listed(item.backup)
      {
        assert all[..i + 1] == all[..i] + [all[i]];
        if Listed(all[i].backup) {
          forall a | 0 <= a < |kept|
            ensures kept[a].name != all[i].name
          {
            assert kept[a] in kept && kept[a] in all[..i];
          }
          kept := kept + [all[i]];
        }
      }
      assert all[..|all|] == all;
      backups := kept;
    }

    method EarlierThan(position: int) returns (earlier: seq<Item>)
      ensures forall item :: item in earlier <==> item in backups && item.backup.queuePosition < position
    {
      earlier := [];
      for i := 0 to |backups|
        invariant forall item ::
          item in earlier <==> item in backups[..i] && item.backup.queuePosition < position
      {
        assert backups[..i + 1] == backups[..i] + [backups[i]];
        if backups[i].backup.queuePosition < position {
          earlier := earlier + [backups[i]];
        }
      }
      assert backups[..|backups|] == backups;
    }

    /** Sorts the list in place and returns the queued ones. */
    method OrderedQueued(ghost api: Api) returns (queued: seq<Item>)
      requires IsFilteredListing(api, backups)
      modifies this
      ensures IsFilteredListing(api, backups)
      ensures forall item :: item in queued <==> item in backups && item.backup.phase.Queued?
      ensures SortedByPosition(queued)
      ensures forall a, b | 0 <= a < b < |queued| :: queued[a].name != queued[b].name
    {
      PermutationKeepsListing(api, backups, SortByPosition(backups));
      backups := SortByPosition(backups);
      queued := OnlyQueued(backups);
    }
  }

  method OnlyQueued(items: seq<Item>) returns (queued: seq<Item>)
    requires SortedByPosition(items)
    requires forall a, b | 0 <= a < b < |items| :: items[a].name != items[b].name
    ensures forall item :: item in queued <==> item in items && item.backup.phase.Queued?
    ensures SortedByPosition(queued)
    ensures forall a, b | 0 <= a < b < |queued| :: queued[a].name != queued[b].name
  {
    queued := [];
    for i := 0 to |items|
      invariant forall item :: item in queued <==> item in items[..i] && item.backup.phase.Queued?
      invariant SortedByPosition(queued)
      invariant forall a, b | 0 <= a < b < |queued| :: queued[a].name != queued[b].name
    {
      assert items[..i + 1] == items[..i] + [items[i]];
      if items[i].backup.phase.Queued? {
        forall a | 0 <= a < |queued|
          ensures queued[a].name != items[i].name
          ensures queued[a].backup.queuePosition <= items[i].backup.queuePosition
        {
          assert queued[a] in queued && queued[a] in items[..i];
        }
        queued := queued + [items[i]];
      }
    }
    assert items[..|items|] == items;
  }

  function Names(items: seq<Item>): (names: seq<Name>)
    ensures |names| == |items| && forall i | 0 <= i < |items| :: names[i] == items[i].name
  {
    seq(|items|, i requires 0 <= i < |items| => items[i].name)
  }

  lemma QueuedNamesAreTheQueue(api: Api, backups: seq<Item>, queued: seq<Item>)
    requires IsFilteredListing(api, backups) && SortedByPosition(queued)
    requires forall a, b | 0 <= a < b < |queued| :: queued[a].name != queued[b].name
    requires forall item :: item in queued <==> item in backups && item.backup.phase.Queued?
    ensures IsQueue(api, Names(queued))
  {
    var names := Names(queued);
    forall i | 0 <= i < |queued|
      ensures IsQueued(api, names[i]) && Position(api, names[i]) == queued[i].backup.queuePosition
    {
      assert queued[i] in queued && queued[i] in backups;
    }
    forall n
      ensures n in names <==> IsQueued(api, n)
    {
      if IsQueued(api, n) {
        assert Item(n, api[n]) in backups && Item(n, api[n]) in queued;
        var i :| 0 <= i < |queued| && queued[i] == Item(n, api[n]);
        assert names[i] == n;
      }
    }
  }

  lemma QueuedAreListed(api: Api, backups: seq<Item>, queued: seq<Item>)
    requires IsFilteredListing(api, backups)
    requires forall item :: item in queued <==> item in backups && item.backup.phase.Queued?
    ensures forall n | IsQueued(api, n) :: Item(n, api[n]) in queued
    ensures forall item | item in queued :: IsQueued(api, item.name) && api[item.name] == item.backup
  {
    forall n | IsQueued(api, n)
      ensures Item(n, api[n]) in queued
    {
      assert Item(n, api[n]) in backups;
    }
  }

  /** `e` conflicts with `b`: ahead of it, or running, and sharing a namespace. */
  predicate ConflictsWith(b: Backup, e: Backup) {
    !(e.phase.Queued? && e.queuePosition >= b.queuePosition) && Overlap(b, e)
  }

  /** Returns the first conflicting backup of `earlier`, if there is one. */
  method DetectNSConflicts(b: Backup, earlier: seq<Item>) returns (conflict: bool, name: Name)
    ensures conflict <==> exists item :: item in earlier && ConflictsWith(b, item.backup)
    ensures conflict ==> exists item :: item in earlier && item.name == name && ConflictsWith(b, item.backup)
  {
    for i := 0 to |earlier|
      invariant forall k | 0 <= k < i :: !ConflictsWith(b, earlier[k].backup)
    {
      var e := earlier[i].backup;
      if e.phase.Queued? && e.queuePosition >= b.queuePosition {
        continue;
      }
      if b.namespaces * e.namespaces != {} {
        assert earlier[i] in earlier && ConflictsWith(b, e);
        return true, earlier[i].name;
      }
    }
    return false, "";
  }

  /** Finds a queued backup ahead of `b` that could run now. */
  method CheckForEarlierRunnable(b: Backup, earlier: seq<Item>) returns (found: bool, name: Name)
    ensures found <==> exists item :: item in earlier && CouldRunBefore(b, item.backup, earlier)
  {
    for i := 0 to |earlier|
      invariant forall k | 0 <= k < i :: !CouldRunBefore(b, earlier[k].backup, earlier)
    {
      var e := earlier[i].backup;
      if !e.phase.Queued? || e.queuePosition >= b.queuePosition {
        continue;
      }
      var conflict, _ := DetectNSConflicts(e, earlier);
      if !conflict {
        assert earlier[i] in earlier && CouldRunBefore(b, e, earlier);
        return true, earlier[i].name;
      }
    }
    return false, "";
  }

  ghost predicate CouldRunBefore(b: Backup, e: Backup, earlier: seq<Item>) {
    && e.phase.Queued? && e.queuePosition < b.queuePosition
    && !exists item :: item in earlier && ConflictsWith(e, item.backup)
  }

  ghost predicate IsEarlier(api: Api, position: int, earlier: seq<Item>) {
    forall item :: item in earlier <==>
      item.name in api && api[item.name] == item.backup && Listed(item.backup) && item.backup.queuePosition < position
  }

  lemma NoConflictMeansRunnable(api: Api, position: int, earlier: seq<Item>, n: Name)
    requires WellPositioned(api) && IsEarlier(api, position, earlier)
    requires IsQueued(api, n) && api[n].queuePosition <= position
    ensures Runnable(api, n) <==> !exists item :: item in earlier && ConflictsWith(api[n], item.backup)
  {
    if item :| item in earlier && ConflictsWith(api[n], item.backup) {
      assert Blocks(api, item.name, n);
    } else {
      forall e | e in api
        ensures !Blocks(api, e, n)
      {
        if Blocks(api, e, n) {
          assert Item(e, api[e]) in earlier && ConflictsWith(api[n], api[e]);
        }
      }
    }
  }

  lemma ChecksMeanAdmissible(api: Api, earlier: seq<Item>, n: Name)
    requires WellPositioned(api) && IsQueued(api, n) && IsEarlier(api, api[n].queuePosition, earlier)
    ensures Admissible(api, n) <==>
            && !(exists item :: item in earlier && ConflictsWith(api[n], item.backup))
            && !(exists item :: item in earlier && CouldRunBefore(api[n], item.backup, earlier))
  {
    var position := api[n].queuePosition;
    NoConflictMeansRunnable(api, position, earlier, n);
    forall e | Before(api, e, n)
      ensures Item(e, api[e]) in earlier
      ensures Runnable(api, e) <==> CouldRunBefore(api[n], api[e], earlier)
    {
      NoConflictMeansRunnable(api, position, earlier, e);
    }
    if item :| item in earlier && CouldRunBefore(api[n], item.backup, earlier) {
      assert Before(api, item.name, n);
    }
  }

  // ----- Reconcile -----

  /** The outcomes of the API calls of one reconcile: the two lists, and the patches in the order they are made. */
  datatype Answers = Answers(listsBackups: bool, listsNamespaces: bool, patches: nat -> bool)

  ghost predicate Enqueued(before: Api, n: Name, after: Api) {
    n in before && exists max :: IsMaxPosition(before, max) && after == Enqueue(before, n, max + 1)
  }

  /** `n` was dequeued and the first `k` renumbering patches were applied. */
  ghost predicate DequeuedAndRenumbered(before: Api, n: Name, order: seq<Name>, k: nat, after: Api) {
    && n in before && IsRemainingQueue(before, n, order) && k <= |order|
    && (forall m | m in order :: m in before)
    && after == Renumbered(Dequeue(before, n), order, k)
  }

  /** Of `total` renumbering patches, the first `k` succeed and the next one, if there is one, fails. */
  predicate StopsAfter(answers: Answers, total: nat, k: nat) {
    && k <= total
    && (forall i | 1 <= i <= k :: answers.patches(i))
    && (k < total ==> !answers.patches(k + 1))
  }

  /** `n` was dequeued, and the others were renumbered up to the first patch that fails. */
  ghost predicate DequeuedInTurn(before: Api, n: Name, answers: Answers, after: Api) {
    exists order, k :: DequeuedAndRenumbered(before, n, order, k, after) && StopsAfter(answers, |order|, k)
  }

  /** What one uninterrupted reconcile of `n` does, given the outcomes of its calls. */
  ghost predicate Reconciled(
    api: Api, tracker: TrackerSets, limit: nat, n: Name, answers: Answers, api': Api, tracker': TrackerSets
  ) {
    if n in api && (api[n].phase.Unset? || api[n].phase.New?) && answers.listsBackups && answers.patches(0) then
      tracker' == tracker && Enqueued(api, n, api')
    else if MayStart(api, tracker, limit, n) && answers.listsBackups && answers.listsNamespaces then
      if answers.patches(0) then
        && tracker' == tracker.AddReadyToStart(n)
        && DequeuedInTurn(api, n, answers, api')
      else
        api' == api && tracker' == tracker.AddReadyToStart(n).Delete(n)
    else
      api' == api && tracker' == tracker
  }

  /** A slot is free, nothing is in the way of `n`, and nobody ahead of it could run instead. */
  ghost predicate MayStart(api: Api, tracker: TrackerSets, limit: nat, n: Name) {
    IsQueued(api, n) && tracker.RunningCount() < limit && Admissible(api, n)
  }

  /** An enqueued backup goes behind everybody who waits, at position 1 if nobody does; nothing else changes. */
  lemma EnqueuedGoesLast(before: Api, n: Name, after: Api)
    requires WellPositioned(before) && n in before && before[n].phase.IsNew() && Enqueued(before, n, after)
    ensures after.Keys == before.Keys
    ensures after[n].phase == Phase.Queued && after[n].namespaces == before[n].namespaces
    ensures forall m | m in before && before[m].phase.Queued? ::
              before[m].queuePosition < after[n].queuePosition
    ensures || after[n].queuePosition == 1
            || exists m :: m in before && before[m].phase.Queued? && after[n].queuePosition == before[m].queuePosition + 1
    ensures forall m | m in before && m != n :: after[m] == before[m]
  {
    forall m | m in before && before[m].phase.Queued?
      ensures before[m].queuePosition < after[n].queuePosition
    {
      assert IsQueued(before, m);
    }
    if m :| IsQueued(before, m) && after[n].queuePosition == before[m].queuePosition + 1 {
      assert before[m].phase.Queued?;
    }
  }

  /** A dequeued backup waits no more; of the others only the queued ones change, and only their positions. */
  lemma DequeuedLeavesTheQueue(before: Api, n: Name, order: seq<Name>, k: nat, after: Api)
    requires WellPositioned(before) && IsQueued(before, n) && DequeuedAndRenumbered(before, n, order, k, after)
    ensures after.Keys == before.Keys
    ensures after[n] == Backup(ReadyToStart, 0, before[n].namespaces)
    ensures forall i | 0 <= i < |order| ::
              after[order[i]] == before[order[i]].(queuePosition :=
                if i < k then i + 1 else before[order[i]].queuePosition)
    ensures forall m | m in before && m != n && !before[m].phase.Queued? :: after[m] == before[m]
    ensures forall m | m in before && m != n && before[m].phase.Queued? :: m in order
  {
    RenumberedPositions(before, n, order, k);
  }

  class BackupQueueReconciler {
    /** The API server's backups; every method that calls it takes the outcome from there. */
    var api: Api
    const tracker: BackupTracker
    const concurrentBackups: nat

    constructor (concurrentBackups: int, tracker: BackupTracker)
      ensures this.concurrentBackups == (if concurrentBackups < 1 then 1 else concurrentBackups)
      ensures this.tracker == tracker && api == map[]
    {
      this.concurrentBackups := if concurrentBackups < 1 then 1 else concurrentBackups;
      this.tracker := tracker;
      api := map[];
    }

    /** The patch of a backup that is there; `ok` is the outcome of the call. */
    method Patch(n: Name, b: Backup, ok: bool)
      requires n in api
      modifies this`api
      ensures api == if ok then old(api)[n := b] else old(api)
    {
      if ok {
        api := api[n := b];
      }
    }

    method ListBackups() returns (items: seq<Item>)
      ensures IsListing(api, items)
    {
      items := [];
      var left := api.Keys;
      while left != {}
        invariant left <= api.Keys
        invariant forall i, j | 0 <= i < j < |items| :: items[i].name != items[j].name
        invariant forall item ::
          item in items <==> item.name in api && api[item.name] == item.backup && item.name !in left
      {
        var n :| n in left;
        forall i | 0 <= i < |items|
          ensures items[i].name != n
        {
          assert items[i] in items;
        }
        items := items + [Item(n, api[n])];
        left := left - {n};
      }
    }

    method GetMaxQueuePosition(lister: QueuedBackupsLister) returns (max: int)
      requires WellPositioned(api) && IsFilteredListing(api, lister.backups)
      modifies lister
      ensures IsMaxPosition(api, max)
    {
      var queued := lister.OrderedQueued(api);
      QueuedAreListed(api, lister.backups, queued);
      max := 0;
      if |queued| > 0 {
        max := queued[|queued| - 1].backup.queuePosition;
        assert queued[|queued| - 1] in queued;
      }
    }

    method Reconcile(n: Name, answers: Answers)
      requires WellPositioned(api)
      modifies this`api, tracker
      ensures Reconciled(old(api), old(tracker.View()), concurrentBackups, n, answers, api, tracker.View())
    {
      if n !in api {
        return;
      }
      var backup := api[n];
      if backup.phase.IsNew() {
        EnqueueBackup(n, backup, answers);
      } else if backup.phase.Queued? {
        DequeueBackup(n, backup, answers);
      }
    }

    method EnqueueBackup(n: Name, backup: Backup, answers: Answers)
      requires WellPositioned(api) && n in api && api[n] == backup && backup.phase.IsNew()
      modifies this`api
      ensures if answers.listsBackups && answers.patches(0) then Enqueued(old(api), n, api) else api == old(api)
    {
      if !answers.listsBackups {
        return;
      }
      var all := ListBackups();
      var lister := new QueuedBackupsLister(all, api);
      var max := GetMaxQueuePosition(lister);
      assert IsMaxPosition(api, max);
      Patch(n, backup.(phase := Phase.Queued, queuePosition := max + 1), answers.patches(0));
    }

    method DequeueBackup(n: Name, backup: Backup, answers: Answers)
      requires WellPositioned(api) && n in api && api[n] == backup && backup.phase.Queued?
      modifies this`api, tracker
      ensures Reconciled(old(api), old(tracker.View()), concurrentBackups, n, answers, api, tracker.View())
    {
      if !answers.listsBackups {
        return;
      }
      var all := ListBackups();
      var lister := new QueuedBackupsLister(all, api);
      var running := tracker.RunningCount();
      if running >= concurrentBackups {
        return;
      }
      var earlier := lister.EarlierThan(backup.queuePosition);
      assert IsEarlier(api, backup.queuePosition, earlier);
      ChecksMeanAdmissible(api, earlier, n);
      if !answers.listsNamespaces {
        return;
      }
      var conflict, _ := DetectNSConflicts(backup, earlier);
      if conflict {
        return;
      }
      var foundEarlier, _ := CheckForEarlierRunnable(backup, earlier);
      if foundEarlier {
        return;
      }
      ghost var before := api;
      tracker.AddReadyToStart(n);
      Patch(n, backup.(phase := ReadyToStart, queuePosition := 0), answers.patches(0));
      if !answers.patches(0) {
        tracker.Delete(n);
        return;
      }
      var queued := lister.OrderedQueued(before);
      QueuedNamesAreTheQueue(before, lister.backups, queued);
      RenumberRemaining(n, queued, answers, before);
    }

    /** One patch per remaining backup, stopping at the first that fails. */
    method RenumberRemaining(n: Name, queued: seq<Item>, answers: Answers, ghost before: Api)
      requires RenumberInput(before, n, queued) && api == Dequeue(before, n)
      modifies this`api
      ensures DequeuedInTurn(before, n, answers, api)
    {
      ghost var k := 0;
      RenumberStart(before, n, queued, answers);
      var newQueuePos := 1;
      for i := 0 to |queued|
        invariant newQueuePos == k + 1
        invariant RenumberAt(before, n, queued, i, k, answers, api)
      {
        RenumberStep(before, n, queued, i, k, answers, api);
        if queued[i].name != n {
          Patch(queued[i].name, queued[i].backup.(queuePosition := newQueuePos), answers.patches(newQueuePos));
          if !answers.patches(newQueuePos) {
            return;
          }
          newQueuePos, k := newQueuePos + 1, k + 1;
        }
      }
      RenumberEnd(before, n, queued, k, answers, api);
    }
  }

  ghost predicate RenumberInput(before: Api, n: Name, queued: seq<Item>) {
    && WellPositioned(before) && IsQueued(before, n) && IsQueue(before, Names(queued))
    && forall item | item in queued :: item.name in before && before[item.name] == item.backup
  }

  /** The first `i` items have been visited and `k` of them patched, all successfully. */
  ghost predicate RenumberAt(
    before: Api, n: Name, queued: seq<Item>, i: nat, k: nat, answers: Answers, api: Api
  ) {
    && i <= |queued| && k == |Without(Names(queued)[..i], n)|
    && (forall j | 1 <= j <= k :: answers.patches(j))
    && DequeuedAndRenumbered(before, n, Without(Names(queued), n), k, api)
  }

  lemma RenumberStart(before: Api, n: Name, queued: seq<Item>, answers: Answers)
    requires RenumberInput(before, n, queued)
    ensures RenumberAt(before, n, queued, 0, 0, answers, Dequeue(before, n))
  {
    WithoutIsRemaining(before, Names(queued), n);
    assert Names(queued)[..0] == [];
  }

  /** One item further: a failing patch ends the renumbering, the item of `n` itself is passed over. */
  lemma RenumberStep(
    before: Api, n: Name, queued: seq<Item>, i: nat, k: nat, answers: Answers, api: Api
  )
    requires RenumberInput(before, n, queued) && RenumberAt(before, n, queued, i, k, answers, api) && i < |queued|
    ensures queued[i].name in api
    ensures if queued[i].name == n then
              RenumberAt(before, n, queued, i + 1, k, answers, api)
            else if answers.patches(k + 1) then
              RenumberAt(before, n, queued, i + 1, k + 1, answers,
                api[queued[i].name := queued[i].backup.(queuePosition := k + 1)])
            else
              DequeuedInTurn(before, n, answers, api)
  {
    var order := Without(Names(queued), n);
    WithoutPrefix(Names(queued), n, i);
    assert queued[i] in queued;
    if queued[i].name != n {
      assert order[k] == queued[i].name;
      if answers.patches(k + 1) {
        RenumberNext(before, n, order, k, queued[i].backup);
      } else {
        assert StopsAfter(answers, |order|, k);
      }
    }
  }

  lemma RenumberEnd(before: Api, n: Name, queued: seq<Item>, k: nat, answers: Answers, api: Api)
    requires RenumberAt(before, n, queued, |queued|, k, answers, api)
    ensures DequeuedInTurn(before, n, answers, api)
  {
    assert Names(queued)[..|queued|] == Names(queued);
    assert StopsAfter(answers, |Without(Names(queued), n)|, k);
  }

  lemma RenumberNext(before: Api, n: Name, order: seq<Name>, k: nat, b: Backup)
    requires WellPositioned(before) && IsQueued(before, n) && IsRemainingQueue(before, n, order)
    requires k < |order| && order[k] in before && before[order[k]] == b
    requires forall m | m in order :: m in before
    ensures Renumbered(Dequeue(before, n), order, k)[order[k] := b.(queuePosition := k + 1)] ==
            Renumbered(Dequeue(before, n), order, k + 1)
  {
    RenumberedAt(Dequeue(before, n), order, k, order[k]);
    assert order[k] !in order[..k];
    assert order[k] in order;
  }

  ghost function Without(names: seq<Name>, n: Name): (r: seq<Name>)
    ensures |r| <= |names|
    ensures forall m :: m in r <==> m in names && m != n
  {
    if names == [] then [] else
      var r := Without(names[..|names| - 1], n);
      assert names == names[..|names| - 1] + [names[|names| - 1]];
      if names[|names| - 1] == n then r else r + [names[|names| - 1]]
  }

  lemma {:induction false} WithoutPrefix(names: seq<Name>, n: Name, i: nat)
    requires i < |names|
    ensures Without(names[..i + 1], n) ==
            if names[i] == n then Without(names[..i], n) else Without(names[..i], n) + [names[i]]
    ensures Without(names[..i + 1], n) <= Without(names, n)
    decreases |names| - i
  {
    assert names[..i + 1][..i] == names[..i];
    if i + 1 == |names| {
      assert names[..i + 1] == names;
    } else {
      WithoutPrefix(names, n, i + 1);
    }
  }

  lemma {:induction false} WithoutIsRemaining(api: Api, names: seq<Name>, n: Name)
    requires IsQueue(api, names)
    ensures IsRemainingQueue(api, n, Without(names, n))
  {
    WithoutKeepsOrder(api, names, n);
    forall m
      ensures m in Without(names, n) <==> m in (set x | x in api && IsQueued(api, x) && x != n)
    {
    }
  }

  lemma {:induction false} WithoutKeepsOrder(api: Api, names: seq<Name>, n: Name)
    requires Distinct(names) && InOrder(api, names)
    ensures Distinct(Without(names, n)) && InOrder(api, Without(names, n))
  {
    if names != [] {
      var front, last := names[..|names| - 1], names[|names| - 1];
      forall i, j | 0 <= i < j < |front|
        ensures front[i] != front[j] && Position(api, front[i]) <= Position(api, front[j])
      {
        assert front[i] == names[i] && front[j] == names[j];
      }
      WithoutKeepsOrder(api, front, n);
      var r := Without(front, n);
      forall i | 0 <= i < |r|
        ensures r[i] != last && Position(api, r[i]) <= Position(api, last)
      {
        assert r[i] in r && r[i] in front;
      }
      assert Without(names, n) == if last == n then r else r + [last];
    }
  }
}
