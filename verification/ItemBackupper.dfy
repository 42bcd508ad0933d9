/**
 Backing up one item, its plugin actions, and through them its additional items, in one worker.

 Plugins, the cluster and the archive may answer differently at every call: their answers are read off an oracle by
 call number. All items come from a finite universe of keys.
 */
module ItemBackupper {
  import opened Options
  import opened ItemTrace

  datatype Outcome = Updated(path: ItemName) | SkippedByPlugin | ActionsFailed

  lemma SmallerUniverse(universe: set<ItemKey>, a: set<ItemKey>, b: set<ItemKey>)
    requires a <= b
    ensures |universe - b| <= |universe - a|
    ensures (exists k :: k in universe && k in b && k !in a) ==> |universe - b| < |universe - a|
  {
    var x, y := universe - b, universe - a;
    assert y == x + (y - x);
  }

  class ItemBackupper {
    const universe: set<ItemKey>
    const actions: nat
    const oracle: Oracle
    var calls: nat                 // how many answers have been taken from the oracle
    var backedUpItems: set<ItemKey>
    var totalItems: set<ItemKey>
    var archive: seq<File>         // headers written, in order
    var operations: seq<ItemKey>   // one entry per asynchronous operation started
    ghost var trace: seq<Call>     // the calls, with their answers

    ghost predicate Valid()
      reads this
    {
      && FindsWithin(oracle, universe)
      && backedUpItems <= totalItems
      && NoRepeats(archive) && Owners(archive) <= backedUpItems
      && |trace| == calls && Truthful(oracle, trace)
    }

    ghost function View(): View
      reads this
    {
      ItemTrace.View(backedUpItems, archive, operations, trace)
    }

    constructor (universe: set<ItemKey>, actions: nat, oracle: Oracle)
      requires FindsWithin(oracle, universe)
      ensures Valid() && this.universe == universe && this.actions == actions && this.oracle == oracle
      ensures View() == ItemTrace.View({}, [], [], [])
    {
      this.universe, this.actions, this.oracle := universe, actions, oracle;
      calls, backedUpItems, totalItems, archive, operations, trace := 0, {}, {}, [], [], [];
    }

    // ----- Calls -----

    method Fails() returns (failed: bool)
      requires Valid()
      modifies this`calls, this`trace
      ensures Valid() && View() == Called(old(View()), Try(failed))
    {
      failed := oracle.fails(calls);
      OneMoreAnswer(oracle, trace, Try(failed));
      calls, trace := calls + 1, trace + [Try(failed)];
    }

    /** Looks at the item's volumes; only an error among them matters here. */
    method InspectVolumes(item: ItemKey) returns (failed: bool)
      requires Valid()
      modifies this`calls, this`trace
      ensures Valid() && View() == Called(old(View()), Volumes(item, failed))
    {
      failed := oracle.fails(calls);
      OneMoreAnswer(oracle, trace, Volumes(item, failed));
      calls, trace := calls + 1, trace + [Volumes(item, failed)];
    }

    method Find(id: ItemKey, mustInclude: bool) returns (found: Lookup)
      requires Valid()
      modifies this`calls, this`trace
      ensures Valid() && Within(found, universe)
      ensures View() == Called(old(View()), LookUp(id, mustInclude, found))
    {
      found := oracle.find(calls);
      OneMoreAnswer(oracle, trace, LookUp(id, mustInclude, found));
      calls, trace := calls + 1, trace + [LookUp(id, mustInclude, found)];
    }

    /** Runs one action; an operation it started is recorded, but for the final phase. */
    method Act(item: ItemKey, action: nat, finalize: bool) returns (result: ActionResult)
      requires Valid()
      modifies this`calls, this`operations, this`trace
      ensures Valid() && View() == Consulted(old(View()), Consult(item, action, result), finalize)
    {
      result := oracle.act(calls);
      OneMoreAnswer(oracle, trace, Consult(item, action, result));
      calls, trace := calls + 1, trace + [Consult(item, action, result)];
      if result.Executed? && result.startsOperation && !finalize {
        operations := operations + [item];
      }
    }

    // ----- Items -----

    /** Writes the item's files, or only returns them when finalizing. */
    method BackupItem(o: Object, mustInclude: bool, finalize: bool)
      returns (selected: bool, files: seq<File>, failed: bool)
      requires Valid() && o.key in universe
      modifies this`calls, this`backedUpItems, this`totalItems, this`archive, this`operations, this`trace
      ensures Valid()
      ensures BackedUpItem(old(View()), View(), o, mustInclude, selected, files, failed, finalize)
      ensures !failed && (mustInclude || o.passesFilters) && !o.deleting && o.key !in old(backedUpItems) ==>
                NewItem(Since(old(View()), View()), o, actions, selected, archive + files)
      // A second visit changes nothing, and neither does a visit of an unwanted object.
      ensures o.key in old(backedUpItems) || !(mustInclude || o.passesFilters) || o.deleting ==>
                backedUpItems == old(backedUpItems) && archive == old(archive) && files == []
      decreases |universe - backedUpItems|, 1
    {
      ghost var v := View();
      selected, files, failed := BackupItemInternal(o, mustInclude, finalize);
      if !selected || failed || |files| == 0 || finalize {
        return;
      }
      ghost var m := View();
      failed := WriteFiles(files);
      ghost var k :| 0 <= k <= |files| && archive == m.archive + files[..k] && (!failed ==> k == |files|);
      Written(v, m, View(), o, mustInclude, files, k, failed);
      if failed {
        return false, [], true;
      }
      assert files[..k] == files;
      if o.key !in v.backedUp {
        NewItemWritten(v, m, View(), o, actions, files);
      }
      return true, [], false;
    }

    /** The files are appended one by one; a failed write leaves the rest out. */
    method WriteFiles(files: seq<File>) returns (failed: bool)
      requires Valid()
      requires NoRepeats(files) && Owners(files) <= backedUpItems && Owners(files) !! Owners(archive)
      modifies this`calls, this`archive, this`trace
      ensures Valid()
      ensures old(trace) <= trace && OnlyTries(Since(old(View()), View()))
      ensures exists k :: 0 <= k <= |files| && archive == old(archive) + files[..k] && (!failed ==> k == |files|)
      ensures if failed then HasFailure(Since(old(View()), View()), false)
              else Clean(Since(old(View()), View()), {}, false)
    {
      for i := 0 to |files|
        invariant Valid() && archive == old(archive) + files[..i]
        invariant old(trace) <= trace && OnlyTries(trace[|old(trace)|..])
        invariant Clean(trace[|old(trace)|..], {}, false)
      {
        assert files[..i + 1] == files[..i] + [files[i]];
        PrefixOfNewFiles(old(archive), files, i + 1);
        failed := Fails();
        if failed {
          assert trace[|trace| - 1] in trace[|old(trace)|..];
          return;
        }
        archive := archive + [files[i]];
        assert archive == old(archive) + files[..i + 1];
        failed := Fails();
        if failed {
          assert trace[|trace| - 1] in trace[|old(trace)|..];
          return;
        }
      }
      assert files[..|files|] == files;
      failed := false;
    }

    /** Decides whether the item is wanted, runs its actions, and prepares its files. */
    method BackupItemInternal(o: Object, mustInclude: bool, finalize: bool)
      returns (selected: bool, files: seq<File>, failed: bool)
      requires Valid() && o.key in universe
      modifies this`calls, this`backedUpItems, this`totalItems, this`archive, this`operations, this`trace
      ensures Valid()
      ensures Prepared(old(View()), View(), o, mustInclude, selected, files, failed, finalize)
      ensures !failed && (mustInclude || o.passesFilters) && !o.deleting && o.key !in old(backedUpItems) ==>
                NewItem(Since(old(View()), View()), o, actions, selected, archive + files)
      ensures o.key in old(backedUpItems) || !(mustInclude || o.passesFilters) || o.deleting ==>
                backedUpItems == old(backedUpItems) && archive == old(archive) && files == []
      decreases |universe - backedUpItems|, 0
    {
      files := [];
      ghost var v := View();
      failed := Fails();
      TryStep(v, failed, finalize);
      TryFails(v, failed, finalize);
      if failed {
        return false, [], true;
      }
      if (!mustInclude && !o.passesFilters) || o.deleting {
        return false, [], false;
      }
      if o.key in backedUpItems {
        return true, [], false;
      }
      ghost var m := View();
      SmallerUniverse(universe, backedUpItems, backedUpItems + {o.key});
      backedUpItems, totalItems := backedUpItems + {o.key}, totalItems + {o.key};
      StartRunning(v, m, View(), o.key, finalize);
      selected, files, failed := BackupMarkedItem(o, mustInclude, finalize, v);
    }

    /** The rest of it, once the item is marked as backed up. */
    method BackupMarkedItem(o: Object, mustInclude: bool, finalize: bool, ghost v: View)
      returns (selected: bool, files: seq<File>, failed: bool)
      requires Valid() && o.key in universe && Wanted(o, mustInclude)
      requires Running(v, View(), o.key, Progress(0, OriginalName(o.key), false, false), Between, [], finalize)
      modifies this`calls, this`backedUpItems, this`totalItems, this`archive, this`operations, this`trace
      ensures Valid()
      ensures Prepared(v, View(), o, mustInclude, selected, files, failed, finalize)
      ensures !failed ==> NewItem(Since(v, View()), o, actions, selected, archive + files)
      decreases |universe - backedUpItems|, 7
    {
      ghost var m, p := View(), Progress(0, OriginalName(o.key), false, false);
      var volumeErrors := InspectVolumes(o.key);
      RunningVolumes(v, m, volumeErrors, o.key, p, [], finalize);
      var outcome;
      outcome, files, p := ExecuteActions(o, finalize, v, volumeErrors);
      if outcome.ActionsFailed? {
        GiveUp(v, View(), o, mustInclude, p, Failed, files, finalize);
        return false, [], true;
      }
      if outcome.SkippedByPlugin? {
        SkipItem(o, mustInclude, files, finalize, v, p);
        return false, [], false;
      }
      selected, files, failed := FinishItem(o, mustInclude, outcome.path, volumeErrors, files, finalize, v);
    }

    /** An item that an action skips is taken out of both maps again. */
    method SkipItem(o: Object, mustInclude: bool, ghost files: seq<File>, ghost finalize: bool, ghost v: View,
        ghost p: Progress)
      requires Valid() && Running(v, View(), o.key, p, Between, files, finalize)
      requires p.skipped && 0 < p.actions <= actions
      modifies this`backedUpItems, this`totalItems
      ensures Valid() && Prepared(v, View(), o, mustInclude, false, [], false, finalize)
      ensures NewItem(Since(v, View()), o, actions, false, archive + [])
    {
      SkipRunning(v, View(), o, mustInclude, p, actions, files, finalize);
      backedUpItems, totalItems := backedUpItems - {o.key}, totalItems - {o.key};
    }

    /** With the actions done, the item's own files join those of its additional items. */
    method FinishItem(o: Object, mustInclude: bool, path: ItemName, volumeErrors: bool, sofar: seq<File>, finalize: bool,
        ghost v: View)
      returns (selected: bool, files: seq<File>, failed: bool)
      requires Valid() && Wanted(o, mustInclude)
      requires Running(v, View(), o.key, Progress(actions, path, false, volumeErrors), Between, sofar, finalize)
      modifies this`calls, this`trace
      ensures Valid()
      ensures Prepared(v, View(), o, mustInclude, selected, files, failed, finalize)
      ensures !failed ==> selected && NewItem(Since(v, View()), o, actions, selected, archive + files)
    {
      files := sofar;
      ghost var m, p := View(), Progress(actions, path, false, volumeErrors);
      failed := Fails();
      RunningTry(v, m, failed, o.key, p, files, finalize);
      if failed || volumeErrors {
        GiveUp(v, View(), o, mustInclude, p, if failed then Failed else Between, files, finalize);
        return false, files, true;
      }
      m := View();
      failed := Fails();
      RunningTry(v, m, failed, o.key, p, files, finalize);
      if failed {
        GiveUp(v, View(), o, mustInclude, p, Failed, files, finalize);
        return false, files, true;
      }
      FinishRunning(v, View(), o, mustInclude, p, files, finalize);
      files := files + FilesOf(o, path);
      return true, files, false;
    }

    // ----- Actions -----

    /** Runs the actions one after the other; each may bring in additional items and rename the item. */
    method ExecuteActions(o: Object, finalize: bool, ghost v: View, ghost volumeErrors: bool)
      returns (outcome: Outcome, files: seq<File>, ghost p: Progress)
      requires Valid()
      requires Running(v, View(), o.key, Progress(0, OriginalName(o.key), false, volumeErrors), Between, [], finalize)
      modifies this`calls, this`backedUpItems, this`totalItems, this`archive, this`operations, this`trace
      ensures Valid() && old(trace) <= trace
      ensures Running(v, View(), o.key, p, if outcome.ActionsFailed? then Failed else Between, files, finalize)
      ensures outcome.Updated? ==> p == Progress(actions, outcome.path, false, volumeErrors)
      ensures outcome.SkippedByPlugin? ==> 0 < p.actions <= actions && p.skipped
      decreases |universe - backedUpItems|, 6
    {
      files := [];
      var path := OriginalName(o.key);
      for a := 0 to actions
        invariant Valid() && old(trace) <= trace && old(backedUpItems) <= backedUpItems
        invariant Running(v, View(), o.key, Progress(a, path, false, volumeErrors), Between, files, finalize)
      {
        SmallerUniverse(universe, old(backedUpItems), backedUpItems);
        outcome, files, p := ExecuteAction(o, a, path, finalize, files, v, volumeErrors);
        if !outcome.Updated? {
          return;
        }
        path := outcome.path;
      }
      return Updated(path), files, Progress(actions, path, false, volumeErrors);
    }

    /** One action, with the additional items it asks for. */
    method ExecuteAction(o: Object, a: nat, path: ItemName, finalize: bool, sofar: seq<File>, ghost v: View,
        ghost volumeErrors: bool)
      returns (outcome: Outcome, files: seq<File>, ghost p: Progress)
      requires Valid() && a < actions
      requires Running(v, View(), o.key, Progress(a, path, false, volumeErrors), Between, sofar, finalize)
      modifies this`calls, this`backedUpItems, this`totalItems, this`archive, this`operations, this`trace
      ensures Valid() && old(trace) <= trace && old(backedUpItems) <= backedUpItems && p.actions == a + 1
      ensures Running(v, View(), o.key, p, if outcome.ActionsFailed? then Failed else Between, files, finalize)
      ensures outcome.Updated? ==> p == Progress(a + 1, outcome.path, false, volumeErrors)
      ensures outcome.SkippedByPlugin? ==> p.skipped
      decreases |universe - backedUpItems|, 5
    {
      files := sofar;
      ghost var m := View();
      var result := Act(o.key, a, finalize);
      ghost var acted := View();
      p := ProgressAfter(Progress(a, path, false, volumeErrors), result);
      RunningAction(v, m, acted, o.key, Progress(a, path, false, volumeErrors), result, files, finalize);
      match result {
        case NotUsed => return Updated(path), files, p;
        case SkippedByPolicy => return Updated(path), files, p;
        case PolicyError => return ActionsFailed, files, p;
        case ExecuteError => return ActionsFailed, files, p;
        case SkipsItem => return SkippedByPlugin, files, p;
        case Executed(additional, mustInclude, startsOperation, renamed) =>
          if startsOperation && finalize {
            return ActionsFailed, files, p;
          }
          var failed;
          failed, files := BackupAdditionalItems(additional, mustInclude || finalize, finalize, files, v, o.key, p);
          OnlyGrows(m.trace, acted.trace, trace);
          return (if failed then ActionsFailed else Updated(if renamed.Some? then renamed.value else path)), files, p;
      }
    }

    /** Looks up what an action asked for and backs up what is found. */
    method BackupAdditionalItems(additional: seq<ItemKey>, mustInclude: bool, finalize: bool, sofar: seq<File>,
        ghost v: View, ghost key: ItemKey, ghost p: Progress)
      returns (failed: bool, files: seq<File>)
      requires Valid() && Running(v, View(), key, p, Fetching(additional, [], mustInclude), sofar, finalize)
      modifies this`calls, this`backedUpItems, this`totalItems, this`archive, this`operations, this`trace
      ensures Valid() && old(trace) <= trace && old(backedUpItems) <= backedUpItems
      ensures Running(v, View(), key, p, if failed then Failed else Between, files, finalize)
      decreases |universe - backedUpItems|, 4
    {
      files := sofar;
      for k := 0 to |additional|
        invariant Valid() && old(trace) <= trace && old(backedUpItems) <= backedUpItems
        invariant Running(v, View(), key, p, Fetching(additional[k..], [], mustInclude), files, finalize)
      {
        assert additional[k..][0] == additional[k] && additional[k..][1..] == additional[k + 1..];
        SmallerUniverse(universe, old(backedUpItems), backedUpItems);
        failed, files := BackupAdditionalItem(additional[k], mustInclude, finalize, files, v, key, p, additional[k..]);
        if failed {
          return;
        }
      }
      assert additional[|additional|..] == [];
      Fetched(v, View(), key, p, mustInclude, files, finalize);
      failed := false;
    }

    /** The versions of an additional item come from the block, or from the cluster. */
    method BackupAdditionalItem(id: ItemKey, mustInclude: bool, finalize: bool, sofar: seq<File>,
        ghost v: View, ghost key: ItemKey, ghost p: Progress, ghost asked: seq<ItemKey>)
      returns (failed: bool, files: seq<File>)
      requires Valid() && asked != [] && id == asked[0]
      requires Running(v, View(), key, p, Fetching(asked, [], mustInclude), sofar, finalize)
      modifies this`calls, this`backedUpItems, this`totalItems, this`archive, this`operations, this`trace
      ensures Valid() && old(trace) <= trace && old(backedUpItems) <= backedUpItems
      ensures Running(v, View(), key, p, if failed then Failed else Fetching(asked[1..], [], mustInclude), files, finalize)
      decreases |universe - backedUpItems|, 3
    {
      files := sofar;
      ghost var m := View();
      var found := Find(id, mustInclude);
      RunningLookUp(v, m, View(), key, p, mustInclude, found, asked, files, finalize);
      if found.LookupError? {
        return true, files;
      }
      failed, files := BackupVersions(found.Objects(), mustInclude, finalize, files, v, key, p, asked[1..]);
    }

    /** Backs up the versions of one additional item. */
    method BackupVersions(itemList: seq<Object>, mustInclude: bool, finalize: bool, sofar: seq<File>,
        ghost v: View, ghost key: ItemKey, ghost p: Progress, ghost rest: seq<ItemKey>)
      returns (failed: bool, files: seq<File>)
      requires Valid() && Within(InBlock(itemList), universe)
      requires Running(v, View(), key, p, Fetching(rest, itemList, mustInclude), sofar, finalize)
      modifies this`calls, this`backedUpItems, this`totalItems, this`archive, this`operations, this`trace
      ensures Valid() && old(trace) <= trace && old(backedUpItems) <= backedUpItems
      ensures Running(v, View(), key, p, if failed then Failed else Fetching(rest, [], mustInclude), files, finalize)
      decreases |universe - backedUpItems|, 2
    {
      files := sofar;
      for k := 0 to |itemList|
        invariant Valid() && old(trace) <= trace && old(backedUpItems) <= backedUpItems
        invariant Running(v, View(), key, p, Fetching(rest, itemList[k..], mustInclude), files, finalize)
      {
        assert itemList[k..][1..] == itemList[k + 1..] && itemList[k] in itemList;
        ghost var m := View();
        SmallerUniverse(universe, old(backedUpItems), backedUpItems);
        var selected, more, itemFailed := BackupItem(itemList[k], mustInclude, finalize);
        RunningObject(v, m, View(), key, p, rest, itemList[k..], mustInclude, files, more, selected, itemFailed, finalize);
        files := files + more;
        if itemFailed {
          return true, files;
        }
      }
      assert itemList[|itemList|..] == [];
      failed := false;
    }
  }

  lemma OnlyGrows(a: seq<Call>, b: seq<Call>, c: seq<Call>)
    requires a <= b <= c
    ensures a <= c
  {
  }

  lemma PrefixOfNewFiles(archive: seq<File>, files: seq<File>, k: nat)
    requires k <= |files| && NoRepeats(archive) && NoRepeats(files) && Owners(files) !! Owners(archive)
    ensures NoRepeats(archive + files[..k])
    ensures Owners(archive + files[..k]) <= Owners(archive) + Owners(files)
  {
    assert files == files[..k] + files[k..];
    OwnersJoin(files[..k], files[k..]);
    JoinKeepsNoRepeats(archive, files[..k]);
  }

  // ----- Renamed items -----

  /** Every action renames its item to `path`, and nothing fails. */
  ghost predicate RenamesAll(o: Oracle, path: ItemName) {
    && (forall n :: o.act(n) == Executed([], false, false, Some(path)))
    && (forall n :: o.find(n) == NotFound)
    && (forall n :: !o.fails(n))
  }

  lemma RenamedTrace(o: Oracle, t: seq<Call>, from: nat, path: ItemName)
    requires Truthful(o, t) && RenamesAll(o, path) && from <= |t|
    ensures !HasFailure(t[from..], false) && !AnySkipped(t[from..])
    ensures forall c | c in t[from..] && c.Consult? :: c.answer == Executed([], false, false, Some(path))
    ensures FoundKeys(t[from..]) == {}
  {
    forall c | c in t[from..]
      ensures !c.IsFailure(false) && (c.Consult? ==> c.answer == Executed([], false, false, Some(path)))
      ensures c.LookUp? ==> c.found == NotFound
    {
      var n :| 0 <= n < |t[from..]| && t[from..][n] == c;
      assert t[from + n] == c;
    }
  }

  lemma {:induction false} RenamedByAction(t: seq<Call>, key: ItemKey, path: ItemName)
    requires ActionsOf(t, key) != []
    requires forall c | c in t && c.Consult? :: c.answer == Executed([], false, false, Some(path))
    ensures NameAfter(t, key) == path
  {
    var front, last := t[..|t| - 1], t[|t| - 1];
    assert t == front + [last];
    if !(last.Consult? && last.item == key) {
      RenamedByAction(front, key, path);
    }
  }

  /** Two items of one resource that actions give the same name are written to the same path, one copy each. */
  method RenamedItemsShareAPath(a: Object, b: Object, path: ItemName) returns (archive: seq<File>)
    requires a.key != b.key && a.key.resource == b.key.resource
    requires Wanted(a, false) && Wanted(b, false)
    ensures exists f, g :: f in archive && g in archive && f.owner != g.owner && SamePath(f, g)
  {
    var oracle := Oracle(n => Executed([], false, false, Some(path)), n => NotFound, n => false);
    assert forall n: nat :: Within(oracle.find(n), {a.key, b.key});
    var ib := new ItemBackupper({a.key, b.key}, 1, oracle);
    BackupRenamed(ib, a, path);
    ghost var written := ib.archive;
    BackupRenamed(ib, b, path);
    archive := ib.archive;
    assert File(a.key, true, path) in archive && File(b.key, true, path) in archive;
  }

  method BackupRenamed(ib: ItemBackupper, o: Object, path: ItemName)
    requires ib.Valid() && RenamesAll(ib.oracle, path) && ib.actions == 1
    requires o.key in ib.universe && o.key !in ib.backedUpItems && Wanted(o, false)
    modifies ib
    ensures ib.Valid() && old(ib.archive) <= ib.archive && File(o.key, true, path) in ib.archive
    ensures forall k | k in ib.backedUpItems && k !in old(ib.backedUpItems) :: k == o.key
  {
    ghost var v := ib.View();
    var selected, _, failed := ib.BackupItem(o, false, false);
    ghost var t := Since(v, ib.View());
    RenamedTrace(ib.oracle, ib.trace, |v.trace|, path);
    assert FoundKeys(t) == {};
    assert selected by {
      assert !AnySkipped(t) ==> !SkippedIn(t, o.key);
    }
    RenamedByAction(t, o.key, path);
    assert UpTo(1)[0] == 0;
  }
}
