/**
 What the item backupper asks of plugins, cluster and archive, call by call, and what the answers oblige it to do.
 */
module ItemTrace {
  import opened Options

  datatype ItemKey = ItemKey(resource: string, namespace: string, name: string)

  /** What the backup looks at: the key, the result of the filters, and whether the item is being deleted. */
  datatype Object = Object(key: ItemKey, passesFilters: bool, deleting: bool, preferredVersion: bool)

  /** The namespace and name an item has after its actions; they make the path of its files. */
  datatype ItemName = ItemName(namespace: string, name: string)

  /** An archive file; there is one without the version only for the preferred version. */
  datatype File = File(owner: ItemKey, versioned: bool, path: ItemName)

  datatype ActionResult =
    | NotUsed
    | PolicyError
    | SkippedByPolicy
    | ExecuteError
    | SkipsItem
    | Executed(additional: seq<ItemKey>, mustInclude: bool, startsOperation: bool, renamed: Option<ItemName>)

  datatype Lookup = InBlock(versions: seq<Object>) | LookupError | NotFound | InCluster(item: Object)
  {
    function Objects(): seq<Object> {
      match this
      case InBlock(versions) => versions
      case InCluster(item) => [item]
      case _ => []
    }
  }

  lemma WhatIsFound(found: Lookup, o: Object)
    ensures o in found.Objects() <==>
              (found.InBlock? && o in found.versions) || (found.InCluster? && o == found.item)
  {
  }

  /**
   A call with its answer: an action run for an item, an additional item looked up, an item's volumes inspected ahead of
   its actions, anything else that may fail.
   */
  datatype Call =
    | Consult(item: ItemKey, action: nat, answer: ActionResult)
    | LookUp(id: ItemKey, mustInclude: bool, found: Lookup)
    | Volumes(item: ItemKey, failed: bool)
    | Try(failed: bool)
  {
    predicate IsFailure(finalize: bool) {
      match this
      case Consult(_, _, answer) =>
        answer.PolicyError? || answer.ExecuteError? || (finalize && answer.Executed? && answer.startsOperation)
      case LookUp(_, _, found) => found.LookupError?
      case Volumes(_, failed) => failed
      case Try(failed) => failed
    }
  }

  /** The answers, by call number. */
  datatype Oracle = Oracle(act: nat -> ActionResult, find: nat -> Lookup, fails: nat -> bool)

  /** Every answer in the trace is the oracle's. */
  ghost predicate Truthful(o: Oracle, t: seq<Call>) {
    forall n | 0 <= n < |t| ::
      match t[n]
      case Consult(_, _, answer) => answer == o.act(n)
      case LookUp(_, _, found) => found == o.find(n)
      case Volumes(_, failed) => failed == o.fails(n)
      case Try(failed) => failed == o.fails(n)
  }

  lemma OneMoreAnswer(o: Oracle, t: seq<Call>, c: Call)
    requires Truthful(o, t)
    requires match c
             case Consult(_, _, answer) => answer == o.act(|t|)
             case LookUp(_, _, found) => found == o.find(|t|)
             case Volumes(_, failed) => failed == o.fails(|t|)
             case Try(failed) => failed == o.fails(|t|)
    ensures Truthful(o, t + [c])
  {
  }

  /** Whatever is found belongs to the universe. */
  ghost predicate FindsWithin(o: Oracle, universe: set<ItemKey>) {
    forall n: nat :: Within(o.find(n), universe)
  }

  ghost predicate Within(found: Lookup, universe: set<ItemKey>) {
    forall o | o in found.Objects() :: o.key in universe
  }

  // ----- What a trace tells -----

  type Requests = multiset<(ItemKey, bool)>

  function RequestsOf(additional: seq<ItemKey>, mustInclude: bool): Requests {
    if additional == [] then multiset{}
    else RequestsOf(additional[..|additional| - 1], mustInclude) + multiset{(additional[|additional| - 1], mustInclude)}
  }

  function AskedBy(c: Call, finalize: bool): Requests {
    if c.Consult? && c.answer.Executed? then RequestsOf(c.answer.additional, c.answer.mustInclude || finalize)
    else multiset{}
  }

  /** The additional items that actions asked for, and whether they have to be included. */
  function Asked(t: seq<Call>, finalize: bool): Requests {
    if t == [] then multiset{} else Asked(t[..|t| - 1], finalize) + AskedBy(t[|t| - 1], finalize)
  }

  function LookedUpBy(c: Call): Requests {
    if c.LookUp? then multiset{(c.id, c.mustInclude)} else multiset{}
  }

  function LookedUp(t: seq<Call>): Requests {
    if t == [] then multiset{} else LookedUp(t[..|t| - 1]) + LookedUpBy(t[|t| - 1])
  }

  function OperationsBy(c: Call): seq<ItemKey> {
    if c.Consult? && c.answer.Executed? && c.answer.startsOperation then [c.item] else []
  }

  /** The items for which actions started operations, in order. */
  function Operations(t: seq<Call>): seq<ItemKey> {
    if t == [] then [] else Operations(t[..|t| - 1]) + OperationsBy(t[|t| - 1])
  }

  /** The numbers of the actions run for `key`, in order. */
  function ActionsOf(t: seq<Call>, key: ItemKey): seq<nat> {
    if t == [] then []
    else
      var last := t[|t| - 1];
      ActionsOf(t[..|t| - 1], key) + if last.Consult? && last.item == key then [last.action] else []
  }

  function OriginalName(key: ItemKey): ItemName {
    ItemName(key.namespace, key.name)
  }

  /** The name of item `key` after its actions. */
  function NameAfter(t: seq<Call>, key: ItemKey): ItemName {
    if t == [] then OriginalName(key)
    else
      var last := t[|t| - 1];
      if last.Consult? && last.item == key && last.answer.Executed? && last.answer.renamed.Some? then
        last.answer.renamed.value
      else NameAfter(t[..|t| - 1], key)
  }

  ghost predicate SkippedIn(t: seq<Call>, key: ItemKey) {
    exists c :: c in t && c.Consult? && c.item == key && c.answer.SkipsItem?
  }

  ghost predicate AnySkipped(t: seq<Call>) {
    exists key :: SkippedIn(t, key)
  }

  ghost predicate HasFailure(t: seq<Call>, finalize: bool) {
    exists c :: c in t && c.IsFailure(finalize)
  }

  /** Nothing has failed, but for the volumes of items that an action has skipped, and of those in `pending`. */
  ghost predicate Clean(t: seq<Call>, pending: set<ItemKey>, finalize: bool) {
    forall c | c in t && c.IsFailure(finalize) :: c.Volumes? && (c.item in pending || SkippedIn(t, c.item))
  }

  lemma CleanFurther(a: seq<Call>, b: seq<Call>, pending: set<ItemKey>, finalize: bool)
    requires Clean(a, pending, finalize) && Clean(b, {}, finalize)
    ensures Clean(a + b, pending, finalize)
  {
    forall c | c in a + b && c.IsFailure(finalize)
      ensures c.Volumes? && (c.item in pending || SkippedIn(a + b, c.item))
    {
      if c in a {
        SkippedInJoin(a, b, c.item);
      } else {
        assert c in b;
        SkippedInJoin(a, b, c.item);
      }
    }
  }

  lemma SkippedInJoin(a: seq<Call>, b: seq<Call>, key: ItemKey)
    ensures SkippedIn(a + b, key) <==> SkippedIn(a, key) || SkippedIn(b, key)
  {
  }

  function UpTo(n: nat): seq<nat> {
    seq(n, i requires 0 <= i < n => i)
  }

  lemma {:induction false} JoinedAsked(a: seq<Call>, b: seq<Call>, finalize: bool)
    ensures Asked(a + b, finalize) == Asked(a, finalize) + Asked(b, finalize)
  {
    if b == [] {
      assert a + b == a;
    } else {
      var front, last := b[..|b| - 1], b[|b| - 1];
      assert (a + b)[..|a + b| - 1] == a + front && (a + b)[|a + b| - 1] == last;
      JoinedAsked(a, front, finalize);
    }
  }

  lemma {:induction false} JoinedLookedUp(a: seq<Call>, b: seq<Call>)
    ensures LookedUp(a + b) == LookedUp(a) + LookedUp(b)
  {
    if b == [] {
      assert a + b == a;
    } else {
      var front, last := b[..|b| - 1], b[|b| - 1];
      assert (a + b)[..|a + b| - 1] == a + front && (a + b)[|a + b| - 1] == last;
      JoinedLookedUp(a, front);
    }
  }

  lemma {:induction false} JoinedOperations(a: seq<Call>, b: seq<Call>)
    ensures Operations(a + b) == Operations(a) + Operations(b)
  {
    if b == [] {
      assert a + b == a;
    } else {
      var front, last := b[..|b| - 1], b[|b| - 1];
      assert (a + b)[..|a + b| - 1] == a + front && (a + b)[|a + b| - 1] == last;
      JoinedOperations(a, front);
    }
  }

  lemma {:induction false} JoinedActions(a: seq<Call>, b: seq<Call>, key: ItemKey)
    ensures ActionsOf(a + b, key) == ActionsOf(a, key) + ActionsOf(b, key)
    ensures ActionsOf(b, key) == [] ==> NameAfter(a + b, key) == NameAfter(a, key)
  {
    if b == [] {
      assert a + b == a;
    } else {
      assert (a + b)[..|a + b| - 1] == a + b[..|b| - 1];
      JoinedActions(a, b[..|b| - 1], key);
    }
  }

  lemma {:induction false} NoActions(t: seq<Call>, key: ItemKey)
    requires SparesItems(t, {key})
    ensures ActionsOf(t, key) == [] && NameAfter(t, key) == OriginalName(key)
    ensures !SkippedIn(t, key) && Volumes(key, true) !in t
  {
    if t != [] {
      var front, last := t[..|t| - 1], t[|t| - 1];
      assert t == front + [last] && Spares(last, {key});
      forall c | c in front
        ensures Spares(c, {key})
      {
        assert c in t;
      }
      NoActions(front, key);
    }
    forall c | c in t
      ensures Spares(c, {key})
    {
    }
  }

  lemma SparesFewer(t: seq<Call>, items: set<ItemKey>, fewer: set<ItemKey>)
    requires SparesItems(t, items) && fewer <= items
    ensures SparesItems(t, fewer)
  {
    forall c | c in t
      ensures Spares(c, fewer)
    {
      assert Spares(c, items);
    }
  }

  lemma {:induction false} WhatIsRequested(additional: seq<ItemKey>, mustInclude: bool, key: ItemKey, flag: bool)
    ensures (key, flag) in RequestsOf(additional, mustInclude) <==> key in additional && flag == mustInclude
  {
    if additional != [] {
      var front, last := additional[..|additional| - 1], additional[|additional| - 1];
      assert additional == front + [last];
      WhatIsRequested(front, mustInclude, key, flag);
    }
  }

  /** An answer that asks for `key`; in the final phase everything asked for has to be included. */
  predicate AsksFor(c: Call, key: ItemKey, mustInclude: bool, finalize: bool) {
    && c.Consult? && c.answer.Executed? && key in c.answer.additional
    && mustInclude == (c.answer.mustInclude || finalize)
  }

  lemma {:induction false} WhatIsAsked(t: seq<Call>, key: ItemKey, mustInclude: bool, finalize: bool)
    ensures (key, mustInclude) in Asked(t, finalize) <==> exists c :: c in t && AsksFor(c, key, mustInclude, finalize)
  {
    if t != [] {
      var front, last := t[..|t| - 1], t[|t| - 1];
      assert t == front + [last];
      WhatIsAsked(front, key, mustInclude, finalize);
      if last.Consult? && last.answer.Executed? {
        WhatIsRequested(last.answer.additional, last.answer.mustInclude || finalize, key, mustInclude);
      }
      assert (key, mustInclude) in AskedBy(last, finalize) <==> AsksFor(last, key, mustInclude, finalize);
      assert forall c :: c in t <==> c in front || c == last;
    }
  }

  lemma {:induction false} WhatIsLookedUp(t: seq<Call>, key: ItemKey, mustInclude: bool)
    ensures (key, mustInclude) in LookedUp(t) <==>
              exists c :: c in t && c.LookUp? && c.id == key && c.mustInclude == mustInclude
  {
    if t != [] {
      var front, last := t[..|t| - 1], t[|t| - 1];
      assert t == front + [last];
      WhatIsLookedUp(front, key, mustInclude);
    }
  }

  /** When nothing is owed any more, exactly the items that answers ask for have been looked up, with the flag they
      were asked for with. */
  lemma AskedIsLookedUp(v: View, v': View, files: seq<File>, finalize: bool, key: ItemKey, mustInclude: bool)
    requires v.trace <= v'.trace && Complete(v, v', NO_DEBT, files, finalize)
    ensures (exists c :: c in Since(v, v') && AsksFor(c, key, mustInclude, finalize)) <==>
            (exists c :: c in Since(v, v') && c.LookUp? && c.id == key && c.mustInclude == mustInclude)
  {
    WhatIsAsked(Since(v, v'), key, mustInclude, finalize);
    WhatIsLookedUp(Since(v, v'), key, mustInclude);
  }

  // ----- Files -----

  ghost predicate NoRepeats(files: seq<File>) {
    forall i, j | 0 <= i < j < |files| ::
      files[i].owner != files[j].owner || files[i].versioned != files[j].versioned
  }

  ghost function Owners(files: seq<File>): set<ItemKey> {
    set f | f in files :: f.owner
  }

  function FilesOf(o: Object, path: ItemName): seq<File> {
    if o.preferredVersion then [File(o.key, false, path), File(o.key, true, path)] else [File(o.key, true, path)]
  }

  /** `files` belong to items backed up since `before`, and nothing of theirs is in the archive. */
  ghost predicate NewFiles(files: seq<File>, before: set<ItemKey>, now: set<ItemKey>, archive: seq<File>) {
    && NoRepeats(files) && Owners(files) <= now && Owners(files) !! before && Owners(files) !! Owners(archive)
  }

  lemma OwnersJoin(a: seq<File>, b: seq<File>)
    ensures Owners(a + b) == Owners(a) + Owners(b)
  {
    forall k
      ensures k in Owners(a + b) <==> k in Owners(a) || k in Owners(b)
    {
      if k in Owners(a) {
        var f :| f in a && f.owner == k;
        assert f in a + b;
      }
      if k in Owners(b) {
        var f :| f in b && f.owner == k;
        assert f in a + b;
      }
    }
  }

  lemma JoinKeepsNoRepeats(a: seq<File>, b: seq<File>)
    requires NoRepeats(a) && NoRepeats(b) && Owners(a) !! Owners(b)
    ensures NoRepeats(a + b) && Owners(a + b) == Owners(a) + Owners(b)
  {
    OwnersJoin(a, b);
    forall i, j | 0 <= i < |a| && 0 <= j < |b|
      ensures a[i].owner != b[j].owner
    {
      assert a[i].owner in Owners(a) && b[j].owner in Owners(b);
    }
  }

  // ----- The state of a backup, and how a call may change it -----

  datatype View = View(backedUp: set<ItemKey>, archive: seq<File>, operations: seq<ItemKey>, trace: seq<Call>)

  function Since(v: View, v': View): seq<Call>
    requires |v.trace| <= |v'.trace|
  {
    v'.trace[|v.trace|..]
  }

  /** The archive only grows, and not by files of what was backed up before. */
  ghost predicate ArchiveGrown(archive: seq<File>, archive': seq<File>, items: set<ItemKey>) {
    archive <= archive' && Owners(archive'[|archive|..]) !! items
  }

  /** No action is run for items that were backed up before. */
  ghost predicate SparesItems(t: seq<Call>, items: set<ItemKey>) {
    forall c {:trigger Spares(c, items)} | c in t :: Spares(c, items)
  }

  ghost predicate Spares(c: Call, items: set<ItemKey>) {
    c.Consult? || c.Volumes? ==> c.item !in items
  }

  /** What any call leaves behind: nothing is taken back, and the operations are exactly those that actions started. */
  ghost predicate Advanced(v: View, v': View, finalize: bool) {
    && v.backedUp <= v'.backedUp
    && ArchiveGrown(v.archive, v'.archive, v.backedUp) && (finalize ==> v'.archive == v.archive)
    && v.trace <= v'.trace
    && v'.operations == v.operations + (if finalize then [] else Operations(Since(v, v')))
    && SparesItems(Since(v, v'), v.backedUp)
  }

  predicate Wanted(o: Object, mustInclude: bool) {
    (mustInclude || o.passesFilters) && !o.deleting
  }

  /** What was found for an action and is wanted. */
  function FoundKeys(t: seq<Call>): set<ItemKey> {
    set c, o | c in t && c.LookUp? && o in c.found.Objects() && Wanted(o, c.mustInclude) :: o.key
  }

  /** Nothing is backed up but `own` and what was found for an action and is wanted. */
  ghost predicate GrownBy(v: View, v': View, own: set<ItemKey>)
    requires v.trace <= v'.trace
  {
    v'.backedUp <= v.backedUp + own + FoundKeys(Since(v, v'))
  }

  lemma FoundKeysJoin(a: seq<Call>, b: seq<Call>)
    ensures FoundKeys(a + b) == FoundKeys(a) + FoundKeys(b)
  {
    forall c, o | c in a && c.LookUp? && o in c.found.Objects() && Wanted(o, c.mustInclude)
      ensures o.key in FoundKeys(a + b)
    {
      assert c in a + b;
    }
    forall c, o | c in b && c.LookUp? && o in c.found.Objects() && Wanted(o, c.mustInclude)
      ensures o.key in FoundKeys(a + b)
    {
      assert c in a + b;
    }
  }

  lemma GrownFurther(v: View, m: View, v': View, own: set<ItemKey>, more: set<ItemKey>)
    requires v.trace <= m.trace <= v'.trace && GrownBy(v, m, own) && GrownBy(m, v', more)
    requires more <= own + FoundKeys(Since(v, m))
    ensures GrownBy(v, v', own) && FoundKeys(Since(v, m)) <= FoundKeys(Since(v, v'))
  {
    SinceJoins(v, m, v');
    FoundKeysJoin(Since(v, m), Since(m, v'));
  }

  /** The object is in the backup, or was rightly left out. */
  ghost predicate Settled(o: Object, mustInclude: bool, t: seq<Call>, backedUp: set<ItemKey>) {
    o.key in backedUp || !Wanted(o, mustInclude) || SkippedIn(t, o.key)
  }

  /** What a backup still owes: look-ups, objects found but not yet handled, and items whose files are to come. */
  datatype Debt = Debt(owed: Requests, due: seq<Object>, mustInclude: bool, pending: set<ItemKey>)

  const NO_DEBT := Debt(multiset{}, [], false, {})

  ghost predicate SettledBut(c: Call, t: seq<Call>, backedUp: set<ItemKey>, debt: Debt) {
    c.LookUp? ==> forall o | o in c.found.Objects() ::
      Settled(o, c.mustInclude, t, backedUp) || (o in debt.due && c.mustInclude == debt.mustInclude)
  }

  /**
   Apart from `debt`, every additional item asked for has been looked up, everything found has been settled, and
   everything new has its files in the archive or in `files`. In the final phase a skipped item takes the files of its
   additional items with it.
   */
  ghost predicate Complete(v: View, v': View, debt: Debt, files: seq<File>, finalize: bool)
    requires |v.trace| <= |v'.trace|
  {
    && LookedUp(Since(v, v')) + debt.owed == Asked(Since(v, v'), finalize)
    && AllSettledBut(Since(v, v'), v'.backedUp, debt)
    && ((finalize && AnySkipped(Since(v, v'))) || FilesKept(v, v', debt.pending, files))
  }

  ghost predicate AllSettledBut(t: seq<Call>, backedUp: set<ItemKey>, debt: Debt) {
    forall c {:trigger SettledBut(c, t, backedUp, debt)} | c in t :: SettledBut(c, t, backedUp, debt)
  }

  ghost predicate KeptAt(v: View, v': View, pending: set<ItemKey>, files: seq<File>, k: ItemKey) {
    k in v'.backedUp && k !in v.backedUp && k !in pending ==> k in Owners(v'.archive) || k in Owners(files)
  }

  ghost predicate FilesKept(v: View, v': View, pending: set<ItemKey>, files: seq<File>) {
    forall k {:trigger KeptAt(v, v', pending, files, k)} :: KeptAt(v, v', pending, files, k)
  }

  lemma SinceJoins(v: View, m: View, v': View)
    requires v.trace <= m.trace <= v'.trace
    ensures Since(v, v') == Since(v, m) + Since(m, v')
  {
  }

  lemma ArchiveFurther(a: seq<File>, b: seq<File>, c: seq<File>, items: set<ItemKey>, more: set<ItemKey>)
    requires items <= more && ArchiveGrown(a, b, items) && ArchiveGrown(b, c, more)
    ensures ArchiveGrown(a, c, items)
  {
    assert c[|a|..] == b[|a|..] + c[|b|..];
    OwnersJoin(b[|a|..], c[|b|..]);
  }

  lemma OperationsFurther(v: View, m: View, v': View, finalize: bool)
    requires v.trace <= m.trace <= v'.trace
    requires m.operations == v.operations + (if finalize then [] else Operations(Since(v, m)))
    requires v'.operations == m.operations + (if finalize then [] else Operations(Since(m, v')))
    ensures v'.operations == v.operations + (if finalize then [] else Operations(Since(v, v')))
  {
    SinceJoins(v, m, v');
    JoinedOperations(Since(v, m), Since(m, v'));
    if !finalize {
      Regroup(v.operations, Operations(Since(v, m)), Operations(Since(m, v')));
    }
  }

  lemma Regroup<T>(a: seq<T>, b: seq<T>, c: seq<T>)
    ensures a + b + c == a + (b + c)
  {
  }

  lemma AdvancedFurther(v: View, m: View, v': View, finalize: bool)
    requires Advanced(v, m, finalize) && Advanced(m, v', finalize)
    ensures Advanced(v, v', finalize)
  {
    ArchiveFurther(v.archive, m.archive, v'.archive, v.backedUp, m.backedUp);
    OperationsFurther(v, m, v', finalize);
    SinceJoins(v, m, v');
    SparesFurther(Since(v, m), Since(m, v'), v.backedUp, m.backedUp);
  }

  lemma SparesFurther(a: seq<Call>, b: seq<Call>, items: set<ItemKey>, more: set<ItemKey>)
    requires items <= more && SparesItems(a, items) && SparesItems(b, more)
    ensures SparesItems(a + b, items)
  {
    forall c | c in a + b
      ensures Spares(c, items)
    {
      assert c in a ==> Spares(c, items);
      assert c in b ==> Spares(c, more);
    }
  }

  lemma SettledFurther(o: Object, mustInclude: bool, t: seq<Call>, backedUp: set<ItemKey>, t': seq<Call>,
      backedUp': set<ItemKey>)
    requires Settled(o, mustInclude, t, backedUp) && backedUp <= backedUp' && forall c | c in t :: c in t'
    ensures Settled(o, mustInclude, t', backedUp')
  {
  }

  lemma CompleteFurther(v: View, m: View, v': View, debt: Debt, files: seq<File>, more: seq<File>, finalize: bool)
    requires Advanced(v, m, finalize) && Advanced(m, v', finalize)
    requires Complete(v, m, debt, files, finalize) && Complete(m, v', NO_DEBT, more, finalize)
    ensures Complete(v, v', debt, files + more, finalize)
  {
    SinceJoins(v, m, v');
    JoinedAsked(Since(v, m), Since(m, v'), finalize);
    JoinedLookedUp(Since(v, m), Since(m, v'));
    CallsSettledFurther(v, m, v', debt, files, more, finalize);
    FilesFurther(v, m, v', debt, files, more, finalize);
  }

  lemma CallsSettledFurther(v: View, m: View, v': View, debt: Debt, files: seq<File>, more: seq<File>, finalize: bool)
    requires Advanced(v, m, finalize) && Advanced(m, v', finalize)
    requires Complete(v, m, debt, files, finalize) && Complete(m, v', NO_DEBT, more, finalize)
    ensures AllSettledBut(Since(v, v'), v'.backedUp, debt)
  {
    SinceJoins(v, m, v');
    var t := Since(v, v');
    forall c | c in t
      ensures SettledBut(c, t, v'.backedUp, debt)
    {
      forall o | c.LookUp? && o in c.found.Objects()
        ensures Settled(o, c.mustInclude, t, v'.backedUp) || (o in debt.due && c.mustInclude == debt.mustInclude)
      {
        if c in Since(v, m) {
          assert SettledBut(c, Since(v, m), m.backedUp, debt);
          if Settled(o, c.mustInclude, Since(v, m), m.backedUp) {
            SettledFurther(o, c.mustInclude, Since(v, m), m.backedUp, t, v'.backedUp);
          }
        } else {
          assert SettledBut(c, Since(m, v'), v'.backedUp, NO_DEBT);
          SettledFurther(o, c.mustInclude, Since(m, v'), v'.backedUp, t, v'.backedUp);
        }
      }
    }
  }

  lemma SkippedFurther(a: seq<Call>, b: seq<Call>)
    ensures AnySkipped(a) || AnySkipped(b) ==> AnySkipped(a + b)
  {
    forall key
      ensures SkippedIn(a, key) || SkippedIn(b, key) ==> SkippedIn(a + b, key)
    {
    }
  }

  lemma OwnersOfPrefix(a: seq<File>, b: seq<File>)
    requires a <= b
    ensures Owners(a) <= Owners(b)
  {
    assert b == a + b[|a|..];
    OwnersJoin(a, b[|a|..]);
  }

  lemma FilesFurther(v: View, m: View, v': View, debt: Debt, files: seq<File>, more: seq<File>, finalize: bool)
    requires Advanced(v, m, finalize) && Advanced(m, v', finalize)
    requires Complete(v, m, debt, files, finalize) && Complete(m, v', NO_DEBT, more, finalize)
    ensures (finalize && AnySkipped(Since(v, v'))) || FilesKept(v, v', debt.pending, files + more)
  {
    SinceJoins(v, m, v');
    SkippedFurther(Since(v, m), Since(m, v'));
    OwnersJoin(files, more);
    OwnersOfPrefix(m.archive, v'.archive);
    if !(finalize && AnySkipped(Since(v, v'))) {
      forall k
        ensures KeptAt(v, v', debt.pending, files + more, k)
      {
        assert KeptAt(v, m, debt.pending, files, k);
        assert KeptAt(m, v', {}, more, k);
      }
    }
  }

  lemma KeepFiles(v: View, m: View, v': View, pending: set<ItemKey>, files: seq<File>, pending': set<ItemKey>,
      files': seq<File>)
    requires FilesKept(v, m, pending, files)
    requires v'.backedUp - v.backedUp - pending' <= (m.backedUp - pending) + Owners(files')
    requires Owners(m.archive) + Owners(files) <= Owners(v'.archive) + Owners(files')
    ensures FilesKept(v, v', pending', files')
  {
    forall k
      ensures KeptAt(v, v', pending', files', k)
    {
      assert KeptAt(v, m, pending, files, k);
      assert k in v'.backedUp - v.backedUp - pending' ==> k in (m.backedUp - pending) + Owners(files');
      assert k in Owners(m.archive) + Owners(files) ==> k in Owners(v'.archive) + Owners(files');
    }
  }

  lemma KeepFilesOrSkip(v: View, m: View, v': View, debt: Debt, files: seq<File>, pending': set<ItemKey>,
      files': seq<File>, finalize: bool)
    requires v.trace <= m.trace <= v'.trace && Complete(v, m, debt, files, finalize)
    requires v'.backedUp - v.backedUp - pending' <= (m.backedUp - debt.pending) + Owners(files')
    requires Owners(m.archive) + Owners(files) <= Owners(v'.archive) + Owners(files')
    ensures (finalize && AnySkipped(Since(v, v'))) || FilesKept(v, v', pending', files')
  {
    SinceJoins(v, m, v');
    SkippedFurther(Since(v, m), Since(m, v'));
    if FilesKept(v, m, debt.pending, files) {
      KeepFiles(v, m, v', debt.pending, files, pending', files');
    }
  }

  // ----- Single calls -----

  function Called(v: View, c: Call): View {
    v.(trace := v.trace + [c])
  }

  lemma SinceOne(v: View, c: Call)
    ensures Since(v, Called(v, c)) == [c]
  {
  }

  lemma OneCall(c: Call, finalize: bool)
    ensures Asked([c], finalize) == AskedBy(c, finalize) && LookedUp([c]) == LookedUpBy(c)
    ensures Operations([c]) == OperationsBy(c)
  {
    assert [c][..0] == [];
  }

  /** A call that is neither an action nor a look-up changes nothing but the trace. */
  lemma TryStep(v: View, failed: bool, finalize: bool)
    ensures var v' := Called(v, Try(failed)); Advanced(v, v', finalize) && Complete(v, v', NO_DEBT, [], finalize)
  {
    SinceOne(v, Try(failed));
    OneCall(Try(failed), finalize);
  }

  /** The state after an action was run for an item, its operation noted. */
  function Consulted(v: View, c: Call, finalize: bool): View {
    Called(v, c).(operations := v.operations + if finalize then [] else OperationsBy(c))
  }

  lemma CallAdvances(v: View, m: View, c: Call, finalize: bool)
    requires Advanced(v, m, finalize) && Spares(c, v.backedUp)
    ensures Advanced(v, Consulted(m, c, finalize), finalize)
  {
    var v' := Consulted(m, c, finalize);
    SinceJoins(v, m, v');
    SinceOne(m, c);
    OneCall(c, finalize);
    OperationsFurther(v, m, v', finalize);
    forall d | d in [c]
      ensures Spares(d, v.backedUp)
    {
    }
    SparesFurther(Since(v, m), [c], v.backedUp, v.backedUp);
  }

  /** A call trades what it pays for what it asks for. */
  lemma CallCompletes(v: View, m: View, c: Call, debt: Debt, debt': Debt, files: seq<File>, finalize: bool)
    requires v.trace <= m.trace && Complete(v, m, debt, files, finalize) && debt.due == []
    requires debt'.pending == debt.pending && LookedUpBy(c) + debt'.owed == debt.owed + AskedBy(c, finalize)
    requires c.LookUp? ==> debt'.due == c.found.Objects() && debt'.mustInclude == c.mustInclude
    ensures Complete(v, Consulted(m, c, finalize), debt', files, finalize)
  {
    var v' := Consulted(m, c, finalize);
    var t := Since(v, m);
    SinceJoins(v, m, v');
    SinceOne(m, c);
    OneCall(c, finalize);
    JoinedAsked(t, [c], finalize);
    JoinedLookedUp(t, [c]);
    assert LookedUp(t + [c]) + debt'.owed == LookedUp(t) + (LookedUpBy(c) + debt'.owed);
    assert Asked(t + [c], finalize) == LookedUp(t) + (debt.owed + AskedBy(c, finalize));
    KeepFilesOrSkip(v, m, v', debt, files, debt.pending, files, finalize);
    CallsStaySettled(v, m, v', c, debt, debt', files, finalize);
  }

  lemma ConsultStep(v: View, m: View, c: Call, pending: set<ItemKey>, mustInclude: bool, files: seq<File>,
      finalize: bool)
    requires Advanced(v, m, finalize) && Complete(v, m, NO_DEBT.(pending := pending), files, finalize)
    requires (c.Consult? || c.Volumes?) && c.item !in v.backedUp
    ensures var v' := Consulted(m, c, finalize);
            && Advanced(v, v', finalize)
            && Complete(v, v', Debt(AskedBy(c, finalize), [], mustInclude, pending), files, finalize)
  {
    CallAdvances(v, m, c, finalize);
    CallCompletes(v, m, c, NO_DEBT.(pending := pending), Debt(AskedBy(c, finalize), [], mustInclude, pending), files,
      finalize);
  }

  lemma CallsStaySettled(v: View, m: View, v': View, c: Call, debt: Debt, debt': Debt, files: seq<File>, finalize: bool)
    requires v.trace <= m.trace && v'.trace == m.trace + [c] && v'.backedUp == m.backedUp
    requires Complete(v, m, debt, files, finalize) && debt.due == []
    requires c.LookUp? ==> debt'.due == c.found.Objects() && debt'.mustInclude == c.mustInclude
    ensures AllSettledBut(Since(v, v'), v'.backedUp, debt')
  {
    SinceJoins(v, m, v');
    assert Since(m, v') == [c];
    forall d | d in Since(v, v')
      ensures SettledBut(d, Since(v, v'), v'.backedUp, debt')
    {
      if d in Since(v, m) {
        assert SettledBut(d, Since(v, m), m.backedUp, debt);
        forall o | d.LookUp? && o in d.found.Objects()
          ensures Settled(o, d.mustInclude, Since(v, v'), v'.backedUp)
        {
          SettledFurther(o, d.mustInclude, Since(v, m), m.backedUp, Since(v, v'), v'.backedUp);
        }
      }
    }
  }

  /** A look-up pays one request and makes the objects found due. */
  lemma LookUpStep(v: View, m: View, c: Call, debt: Debt, files: seq<File>, finalize: bool)
    requires Advanced(v, m, finalize) && Complete(v, m, debt, files, finalize) && debt.due == []
    requires c.LookUp? && (c.id, c.mustInclude) in debt.owed
    ensures var v' := Called(m, c);
            && Advanced(v, v', finalize)
            && Complete(v, v', debt.(owed := debt.owed - LookedUpBy(c), due := c.found.Objects(), mustInclude := c.mustInclude),
                        files, finalize)
  {
    assert Called(m, c) == Consulted(m, c, finalize);
    CallAdvances(v, m, c, finalize);
    CallCompletes(v, m, c, debt,
      debt.(owed := debt.owed - LookedUpBy(c), due := c.found.Objects(), mustInclude := c.mustInclude), files, finalize);
  }

  /** An object that is settled is no longer due. */
  lemma PayObject(v: View, m: View, debt: Debt, rest: seq<Object>, files: seq<File>, finalize: bool)
    requires v.trace <= m.trace && Complete(v, m, debt, files, finalize)
    requires debt.due != [] && rest == debt.due[1..]
    requires Settled(debt.due[0], debt.mustInclude, Since(v, m), m.backedUp)
    ensures Complete(v, m, debt.(due := rest), files, finalize)
  {
    assert debt.due == [debt.due[0]] + rest;
    forall c | c in Since(v, m)
      ensures SettledBut(c, Since(v, m), m.backedUp, debt.(due := rest))
    {
      assert SettledBut(c, Since(v, m), m.backedUp, debt);
    }
  }

  // ----- One item -----

  /** The item's key is marked before its actions are run; its files are to come. */
  lemma MarkStep(v: View, m: View, key: ItemKey, finalize: bool)
    requires Advanced(v, m, finalize) && Complete(v, m, NO_DEBT, [], finalize) && key !in v.backedUp
    ensures var v' := m.(backedUp := m.backedUp + {key});
            Advanced(v, v', finalize) && Complete(v, v', NO_DEBT.(pending := {key}), [], finalize)
  {
    var v' := m.(backedUp := m.backedUp + {key});
    assert Since(v, v') == Since(v, m);
    forall c | c in Since(v, m)
      ensures SettledBut(c, Since(v, m), v'.backedUp, NO_DEBT.(pending := {key}))
    {
      assert SettledBut(c, Since(v, m), m.backedUp, NO_DEBT);
    }
    KeepFilesOrSkip(v, m, v', NO_DEBT, [], {key}, [], finalize);
  }

  /** An item that an action skips is taken out again, and in the final phase its additional items lose their files. */
  lemma SkipStep(v: View, m: View, key: ItemKey, files: seq<File>, finalize: bool)
    requires Advanced(v, m, finalize) && Complete(v, m, NO_DEBT.(pending := {key}), files, finalize)
    requires key !in v.backedUp && SkippedIn(Since(v, m), key) && (finalize || files == [])
    ensures var v' := m.(backedUp := m.backedUp - {key});
            Advanced(v, v', finalize) && Complete(v, v', NO_DEBT, [], finalize)
  {
    var v' := m.(backedUp := m.backedUp - {key});
    assert Since(v, v') == Since(v, m);
    forall c | c in Since(v, m)
      ensures SettledBut(c, Since(v, m), v'.backedUp, NO_DEBT)
    {
      assert SettledBut(c, Since(v, m), m.backedUp, NO_DEBT.(pending := {key}));
    }
    if !finalize {
      KeepFilesOrSkip(v, m, v', NO_DEBT.(pending := {key}), files, {}, [], finalize);
    }
  }

  /** The item's own files join those of its additional items. */
  lemma OwnFilesStep(v: View, m: View, o: Object, path: ItemName, files: seq<File>, finalize: bool)
    requires v.trace <= m.trace && Complete(v, m, NO_DEBT.(pending := {o.key}), files, finalize)
    ensures Complete(v, m, NO_DEBT, files + FilesOf(o, path), finalize)
  {
    var own := FilesOf(o, path);
    OwnersJoin(files, own);
    assert own[0] in own && own[0].owner == o.key;
    assert o.key in Owners(own);
    forall c | c in Since(v, m)
      ensures SettledBut(c, Since(v, m), m.backedUp, NO_DEBT)
    {
      assert SettledBut(c, Since(v, m), m.backedUp, NO_DEBT.(pending := {o.key}));
    }
    KeepFilesOrSkip(v, m, m, NO_DEBT.(pending := {o.key}), files, {}, files + own, finalize);
  }

  ghost predicate OnlyTries(t: seq<Call>) {
    forall c | c in t :: c.Try?
  }

  lemma {:induction false} TriesTellNothing(t: seq<Call>, finalize: bool)
    requires OnlyTries(t)
    ensures Asked(t, finalize) == LookedUp(t) == multiset{} && Operations(t) == []
  {
    if t != [] {
      var front, last := t[..|t| - 1], t[|t| - 1];
      assert t == front + [last] && last in t;
      TriesTellNothing(front, finalize);
    }
  }

  lemma TriesAreNoActions(v: View, m: View, v': View, key: ItemKey)
    requires v.trace <= m.trace <= v'.trace && OnlyTries(Since(m, v'))
    ensures ActionsOf(Since(v, v'), key) == ActionsOf(Since(v, m), key)
    ensures NameAfter(Since(v, v'), key) == NameAfter(Since(v, m), key)
    ensures SkippedIn(Since(v, m), key) <==> SkippedIn(Since(v, v'), key)
  {
    SinceJoins(v, m, v');
    forall c | c in Since(m, v')
      ensures Spares(c, {key})
    {
    }
    NoActions(Since(m, v'), key);
    JoinedActions(Since(v, m), Since(m, v'), key);
  }

  /** Files are written: `k` of them have reached the archive. */
  lemma WriteStep(v: View, m: View, v': View, files: seq<File>, k: nat)
    requires Advanced(v, m, false) && Complete(v, m, NO_DEBT, files, false)
    requires k <= |files| && Owners(files) !! v.backedUp
    requires m.trace <= v'.trace && OnlyTries(Since(m, v'))
    requires v' == m.(archive := m.archive + files[..k], trace := v'.trace)
    ensures Advanced(v, v', false)
    ensures k == |files| ==> Complete(v, v', NO_DEBT, [], false)
  {
    WritingAdvances(v, m, v', files, k);
    if k == |files| {
      assert files[..k] == files;
      WritingCompletes(v, m, v', files);
    }
  }

  lemma WritingAdvances(v: View, m: View, v': View, files: seq<File>, k: nat)
    requires Advanced(v, m, false) && k <= |files| && Owners(files) !! v.backedUp
    requires m.trace <= v'.trace && OnlyTries(Since(m, v'))
    requires v' == m.(archive := m.archive + files[..k], trace := v'.trace)
    ensures Advanced(v, v', false)
  {
    var t := Since(m, v');
    SinceJoins(v, m, v');
    TriesTellNothing(t, false);
    JoinedOperations(Since(v, m), t);
    forall c | c in t
      ensures Spares(c, v.backedUp)
    {
    }
    SparesFurther(Since(v, m), t, v.backedUp, v.backedUp);
    OwnersOfPrefix(files[..k], files);
    assert v'.archive[|m.archive|..] == files[..k];
    ArchiveFurther(v.archive, m.archive, v'.archive, v.backedUp, v.backedUp);
  }

  lemma WritingCompletes(v: View, m: View, v': View, files: seq<File>)
    requires v.trace <= m.trace <= v'.trace && Complete(v, m, NO_DEBT, files, false) && OnlyTries(Since(m, v'))
    requires v' == m.(archive := m.archive + files, trace := v'.trace)
    ensures Complete(v, v', NO_DEBT, [], false)
  {
    var t := Since(m, v');
    SinceJoins(v, m, v');
    TriesTellNothing(t, false);
    JoinedAsked(Since(v, m), t, false);
    JoinedLookedUp(Since(v, m), t);
    OwnersJoin(m.archive, files);
    KeepFilesOrSkip(v, m, v', NO_DEBT, files, {}, [], false);
    TriesSettled(v, m, v', files);
  }

  lemma TriesSettled(v: View, m: View, v': View, files: seq<File>)
    requires v.trace <= m.trace <= v'.trace && m.backedUp == v'.backedUp && Complete(v, m, NO_DEBT, files, false)
    requires OnlyTries(Since(m, v'))
    ensures AllSettledBut(Since(v, v'), v'.backedUp, NO_DEBT)
  {
    SinceJoins(v, m, v');
    forall c | c in Since(v, v')
      ensures SettledBut(c, Since(v, v'), v'.backedUp, NO_DEBT)
    {
      if c.LookUp? {
        assert SettledBut(c, Since(v, m), m.backedUp, NO_DEBT);
      }
    }
  }

  // ----- An item while its actions are run -----

  ghost predicate Underway(v: View, m: View, key: ItemKey, debt: Debt, files: seq<File>, finalize: bool) {
    && Advanced(v, m, finalize) && debt.pending == {key} && Complete(v, m, debt, files, finalize)
    && key !in v.backedUp && key in m.backedUp && key !in Owners(m.archive)
    && GrownBy(v, m, {key}) && WantedOf(debt.due, debt.mustInclude) <= FoundKeys(Since(v, m))
    && Clean(Since(v, m), {key}, finalize)
    && NewFiles(files, v.backedUp + {key}, m.backedUp, m.archive) && (!finalize ==> files == [])
  }

  function WantedOf(due: seq<Object>, mustInclude: bool): set<ItemKey> {
    set o | o in due && Wanted(o, mustInclude) :: o.key
  }

  /**
   Between two actions, or fetching what the last one asked for (`rest` to be looked up, `due` to be backed up), or given
   up after a failure.
   */
  datatype Stage = Between | Fetching(rest: seq<ItemKey>, due: seq<Object>, mustInclude: bool) | Failed

  /**
   How far the item's actions have got: how many were run, the name the item has now, whether one has skipped it, and
   whether there was an error with its volumes.
   */
  datatype Progress = Progress(actions: nat, path: ItemName, skipped: bool, volumeErrors: bool)

  ghost predicate Acted(t: seq<Call>, key: ItemKey, p: Progress) {
    && ActionsOf(t, key) == UpTo(p.actions) && NameAfter(t, key) == p.path
    && (SkippedIn(t, key) <==> p.skipped) && (Volumes(key, true) in t <==> p.volumeErrors)
  }

  function Pending(key: ItemKey): Debt {
    NO_DEBT.(pending := {key})
  }

  function Due(key: ItemKey, rest: seq<ItemKey>, due: seq<Object>, mustInclude: bool): Debt {
    Debt(RequestsOf(rest, mustInclude), due, mustInclude, {key})
  }

  /** Item `key` is marked, has nothing in the archive yet, and `files` of its additional items are to be returned. */
  ghost predicate Running(v: View, m: View, key: ItemKey, p: Progress, stage: Stage, files: seq<File>, finalize: bool) {
    match stage
    case Between => Underway(v, m, key, Pending(key), files, finalize) && Acted(Since(v, m), key, p)
    case Fetching(rest, due, mustInclude) =>
      Underway(v, m, key, Due(key, rest, due, mustInclude), files, finalize) && Acted(Since(v, m), key, p)
    case Failed => Advanced(v, m, finalize) && HasFailure(Since(v, m), finalize)
  }

  lemma KeyStaysOut(key: ItemKey, a: seq<File>, b: seq<File>, items: set<ItemKey>)
    requires key !in Owners(a) && ArchiveGrown(a, b, items) && key in items
    ensures key !in Owners(b)
  {
    assert b == a + b[|a|..];
    OwnersJoin(a, b[|a|..]);
  }

  lemma MoreNewFiles(files: seq<File>, more: seq<File>, items: set<ItemKey>, before: set<ItemKey>,
      now: set<ItemKey>, archived: seq<File>, archive: seq<File>)
    requires items <= before <= now && ArchiveGrown(archived, archive, before)
    requires NewFiles(files, items, before, archived) && NewFiles(more, before, now, archive)
    ensures NewFiles(files + more, items, now, archive)
  {
    assert archive == archived + archive[|archived|..];
    OwnersJoin(archived, archive[|archived|..]);
    JoinKeepsNoRepeats(files, more);
  }

  /** Backing up another item leaves this one running, and runs no action for it. */
  lemma UnderwayFurther(v: View, m: View, v': View, key: ItemKey, debt: Debt, files: seq<File>, more: seq<File>,
      own: set<ItemKey>, finalize: bool)
    requires Underway(v, m, key, debt, files, finalize)
    requires m.trace <= v'.trace && GrownBy(m, v', own) && own <= WantedOf(debt.due, debt.mustInclude)
    requires Clean(Since(m, v'), {}, finalize)
    requires Advanced(m, v', finalize) && Complete(m, v', NO_DEBT, more, finalize)
    requires NewFiles(more, m.backedUp, v'.backedUp, v'.archive) && (!finalize ==> more == [])
    ensures Underway(v, v', key, debt, files + more, finalize)
    ensures SameActions(v, m, v', key)
  {
    AdvancedFurther(v, m, v', finalize);
    CompleteFurther(v, m, v', debt, files, more, finalize);
    KeyStaysOut(key, m.archive, v'.archive, m.backedUp);
    MoreNewFiles(files, more, v.backedUp + {key}, m.backedUp, v'.backedUp, m.archive, v'.archive);
    ActionsUnchanged(v, m, v', key);
    GrownFurther(v, m, v', {key}, own);
    SinceJoins(v, m, v');
    CleanFurther(Since(v, m), Since(m, v'), {key}, finalize);
  }

  ghost predicate SameActions(v: View, m: View, v': View, key: ItemKey) {
    && v.trace <= m.trace <= v'.trace
    && ActionsOf(Since(v, v'), key) == ActionsOf(Since(v, m), key)
    && NameAfter(Since(v, v'), key) == NameAfter(Since(v, m), key)
    && (SkippedIn(Since(v, v'), key) <==> SkippedIn(Since(v, m), key))
    && (Volumes(key, true) in Since(v, v') <==> Volumes(key, true) in Since(v, m))
  }

  lemma ActionsUnchanged(v: View, m: View, v': View, key: ItemKey)
    requires v.trace <= m.trace <= v'.trace && SparesItems(Since(m, v'), m.backedUp) && key in m.backedUp
    ensures SameActions(v, m, v', key)
  {
    SinceJoins(v, m, v');
    SparesFewer(Since(m, v'), m.backedUp, {key});
    NoActions(Since(m, v'), key);
    JoinedActions(Since(v, m), Since(m, v'), key);
  }

  /** A call that may fail, between two actions. */
  lemma RunningTry(v: View, m: View, failed: bool, key: ItemKey, p: Progress, files: seq<File>, finalize: bool)
    requires Running(v, m, key, p, Between, files, finalize)
    ensures Running(v, Called(m, Try(failed)), key, p, if failed then Failed else Between, files, finalize)
  {
    var v' := Called(m, Try(failed));
    TryStep(m, failed, finalize);
    TryFails(m, failed, finalize);
    if failed {
      AdvancedFurther(v, m, v', finalize);
      FailureStays(v, m, v', finalize);
    } else {
      assert files + [] == files;
      UnderwayFurther(v, m, v', key, Pending(key), files, [], {}, finalize);
    }
  }

  /** The item's volumes are inspected; an error among them is only looked at once the actions are done. */
  lemma RunningVolumes(v: View, m: View, failed: bool, key: ItemKey, p: Progress, files: seq<File>, finalize: bool)
    requires Running(v, m, key, p, Between, files, finalize) && !p.volumeErrors
    ensures Running(v, Called(m, Volumes(key, failed)), key, p.(volumeErrors := failed), Between, files, finalize)
  {
    var c := Volumes(key, failed);
    ActionUnderway(v, m, Called(m, c), key, c, files, finalize);
    SinceConsulted(v, m, c, finalize);
    NoteVolumes(Since(v, m), key, p, failed);
  }

  lemma NoteVolumes(t: seq<Call>, key: ItemKey, p: Progress, failed: bool)
    requires Acted(t, key, p) && !p.volumeErrors
    ensures Acted(t + [Volumes(key, failed)], key, p.(volumeErrors := failed))
  {
    var c := Volumes(key, failed);
    assert (t + [c])[..|t|] == t;
    SkippedInJoin(t, [c], key);
  }

  /** An error with the item's volumes is a failure of the trace. */
  lemma VolumeErrorIsFailure(t: seq<Call>, key: ItemKey, p: Progress, finalize: bool)
    requires Acted(t, key, p) && p.volumeErrors
    ensures HasFailure(t, finalize)
  {
    assert Volumes(key, true).IsFailure(finalize);
  }

  /** Giving up is possible wherever something has failed. */
  lemma GiveUp(v: View, m: View, o: Object, mustInclude: bool, p: Progress, stage: Stage, files: seq<File>,
      finalize: bool)
    requires Running(v, m, o.key, p, stage, files, finalize) && (stage.Failed? || p.volumeErrors)
    ensures forall more :: Prepared(v, m, o, mustInclude, false, more, true, finalize)
  {
    if !stage.Failed? {
      VolumeErrorIsFailure(Since(v, m), o.key, p, finalize);
    }
  }

  lemma TryFails(m: View, failed: bool, finalize: bool)
    ensures if failed then HasFailure(Since(m, Called(m, Try(failed))), finalize)
            else Clean(Since(m, Called(m, Try(failed))), {}, finalize)
  {
    SinceOne(m, Try(failed));
    assert Try(failed) in [Try(failed)];
  }

  lemma FailureStays(v: View, m: View, v': View, finalize: bool)
    requires v.trace <= m.trace <= v'.trace
    ensures HasFailure(Since(v, m), finalize) || HasFailure(Since(m, v'), finalize) ==> HasFailure(Since(v, v'), finalize)
  {
    SinceJoins(v, m, v');
  }

  lemma StartRunning(v: View, m: View, v': View, key: ItemKey, finalize: bool)
    requires v' == m.(backedUp := m.backedUp + {key})
    requires Advanced(v, m, finalize) && Complete(v, m, NO_DEBT, [], finalize)
    requires key !in v.backedUp && m.archive == v.archive && Owners(v.archive) <= v.backedUp && m.backedUp == v.backedUp
    requires OnlyTries(Since(v, m)) && Clean(Since(v, m), {}, finalize)
    ensures Running(v, v', key, Progress(0, OriginalName(key), false, false), Between, [],
              finalize)
  {
    MarkStep(v, m, key, finalize);
    assert Since(v, v') == Since(v, m);
    forall c | c in Since(v, m)
      ensures Spares(c, {key})
    {
    }
    NoActions(Since(v, m), key);
  }

  /** Where an answer takes the item. */
  function StageAfter(answer: ActionResult, finalize: bool): Stage {
    match answer
    case PolicyError => Failed
    case ExecuteError => Failed
    case Executed(additional, mustInclude, startsOperation, _) =>
      if startsOperation && finalize then Failed else Fetching(additional, [], mustInclude || finalize)
    case _ => Between
  }

  function ProgressAfter(p: Progress, answer: ActionResult): Progress {
    p.(actions := p.actions + 1,
       path := if answer.Executed? && answer.renamed.Some? then answer.renamed.value else p.path,
       skipped := p.skipped || answer.SkipsItem?)
  }

  /** With nothing due, whether it must be included does not matter. */
  lemma FlagIrrelevant(v: View, m: View, debt: Debt, mustInclude: bool, files: seq<File>, finalize: bool)
    requires v.trace <= m.trace && Complete(v, m, debt, files, finalize) && debt.due == []
    ensures Complete(v, m, debt.(mustInclude := mustInclude), files, finalize)
  {
    forall c | c in Since(v, m)
      ensures SettledBut(c, Since(v, m), m.backedUp, debt.(mustInclude := mustInclude))
    {
      assert SettledBut(c, Since(v, m), m.backedUp, debt);
    }
  }

  /** One action more, whatever it answered. */
  lemma RunningAction(v: View, m: View, v': View, key: ItemKey, p: Progress, answer: ActionResult, files: seq<File>,
      finalize: bool)
    requires Running(v, m, key, p, Between, files, finalize)
    requires v' == Consulted(m, Consult(key, p.actions, answer), finalize)
    ensures Running(v, v', key, ProgressAfter(p, answer), StageAfter(answer, finalize), files, finalize)
  {
    var c := Consult(key, p.actions, answer);
    ActionUnderway(v, m, v', key, c, files, finalize);
    NoteAction(Since(v, m), key, p, answer);
    SinceConsulted(v, m, c, finalize);
    StageFits(c, finalize);
    if !c.IsFailure(finalize) {
      Resume(v, v', key, ProgressAfter(p, answer), StageAfter(answer, finalize), files, finalize);
    }
  }

  /** Where an answer takes the item fits what the item owes after it. */
  lemma StageFits(c: Call, finalize: bool)
    requires c.Consult?
    ensures StageAfter(c.answer, finalize).Failed? <==> c.IsFailure(finalize)
    ensures !c.IsFailure(finalize) ==> DebtAfter(c.item, c, finalize) == DebtAt(c.item, StageAfter(c.answer, finalize))
  {
  }

  function DebtAt(key: ItemKey, stage: Stage): Debt {
    match stage
    case Fetching(rest, due, mustInclude) => Due(key, rest, due, mustInclude)
    case _ => Pending(key)
  }

  lemma Resume(v: View, m: View, key: ItemKey, p: Progress, stage: Stage, files: seq<File>, finalize: bool)
    requires Underway(v, m, key, DebtAt(key, stage), files, finalize) && Acted(Since(v, m), key, p) && !stage.Failed?
    ensures Running(v, m, key, p, stage, files, finalize)
  {
  }

  lemma WhatOperationsAre(t: seq<Call>, key: ItemKey)
    ensures key in Operations(t) <==>
              exists c :: c in t && c.Consult? && c.item == key && c.answer.Executed? && c.answer.startsOperation
  {
    if t != [] {
      var front, last := t[..|t| - 1], t[|t| - 1];
      assert t == front + [last];
      WhatOperationsAre(front, key);
      assert forall c :: c in t <==> c in front || c == last;
    }
  }

  /** The requests of the action's answer are owed from now on. */
  lemma ActionUnderway(v: View, m: View, v': View, key: ItemKey, c: Call, files: seq<File>, finalize: bool)
    requires Underway(v, m, key, Pending(key), files, finalize) && (c.Consult? || c.Volumes?) && c.item == key
    requires v' == Consulted(m, c, finalize)
    ensures Advanced(v, v', finalize)
    ensures c.Consult? && c.IsFailure(finalize) ==> HasFailure(Since(v, v'), finalize)
    ensures c.Volumes? || !c.IsFailure(finalize) ==>
              Underway(v, v', key, DebtAfter(key, c, finalize), files, finalize)
  {
    ConsultStep(v, m, c, {key}, c.Consult? && c.answer.Executed? && (c.answer.mustInclude || finalize), files, finalize);
    SinceConsulted(v, m, c, finalize);
    assert c in Since(v, v');
    if c.Volumes? || !c.IsFailure(finalize) {
      GrownFurther(v, m, v', {key}, {});
      OneMoreClean(Since(v, m), c, key, finalize);
    }
  }

  lemma OneMoreClean(t: seq<Call>, c: Call, key: ItemKey, finalize: bool)
    requires Clean(t, {key}, finalize) && ((c.Volumes? && c.item == key) || !c.IsFailure(finalize))
    ensures Clean(t + [c], {key}, finalize)
  {
    forall d | d in t + [c] && d.IsFailure(finalize)
      ensures d.Volumes? && (d.item in {key} || SkippedIn(t + [c], d.item))
    {
      if d in t && d.Volumes? {
        SkippedInJoin(t, [c], d.item);
      }
    }
  }

  function DebtAfter(key: ItemKey, c: Call, finalize: bool): Debt {
    if c.Consult? && c.answer.Executed? then
      Due(key, c.answer.additional, [], c.answer.mustInclude || finalize)
    else
      Pending(key)
  }

  lemma NoteAction(t: seq<Call>, key: ItemKey, p: Progress, answer: ActionResult)
    requires Acted(t, key, p)
    ensures var c := Consult(key, p.actions, answer); c in t + [c] && Acted(t + [c], key, ProgressAfter(p, answer))
  {
    LastAction(t, Consult(key, p.actions, answer));
    SkippedInJoin(t, [Consult(key, p.actions, answer)], key);
    OneMoreUpTo(p.actions);
  }

  lemma SinceConsulted(v: View, m: View, c: Call, finalize: bool)
    requires v.trace <= m.trace
    ensures Since(v, Consulted(m, c, finalize)) == Since(v, m) + [c]
  {
  }

  lemma OneMoreUpTo(n: nat)
    ensures UpTo(n + 1) == UpTo(n) + [n]
  {
  }

  lemma LastAction(t: seq<Call>, c: Call)
    requires c.Consult?
    ensures c in t + [c] && ActionsOf(t + [c], c.item) == ActionsOf(t, c.item) + [c.action]
    ensures NameAfter(t + [c], c.item) ==
            if c.answer.Executed? && c.answer.renamed.Some? then c.answer.renamed.value else NameAfter(t, c.item)
  {
    assert (t + [c])[..|t|] == t;
  }

  lemma RunningLookUp(v: View, m: View, v': View, key: ItemKey, p: Progress, mustInclude: bool, found: Lookup,
      asked: seq<ItemKey>, files: seq<File>, finalize: bool)
    requires asked != [] && Running(v, m, key, p, Fetching(asked, [], mustInclude), files, finalize)
    requires v' == Called(m, LookUp(asked[0], mustInclude, found))
    ensures Running(v, v', key, p,
                    if found.LookupError? then Failed else Fetching(asked[1..], found.Objects(), mustInclude), files, finalize)
  {
    var c := LookUp(asked[0], mustInclude, found);
    LookUpUnderway(v, m, v', key, c, asked, files, finalize);
    if !found.LookupError? {
      LookUpIsNoAction(v, m, v', key, c);
      Resume(v, v', key, p, Fetching(asked[1..], found.Objects(), mustInclude), files, finalize);
    }
  }

  lemma LookUpIsNoAction(v: View, m: View, v': View, key: ItemKey, c: Call)
    requires v.trace <= m.trace && v' == Called(m, c) && c.LookUp? && key in m.backedUp
    ensures SameActions(v, m, v', key)
  {
    SinceOne(m, c);
    assert Spares(c, m.backedUp);
    ActionsUnchanged(v, m, v', key);
  }

  lemma LookUpUnderway(v: View, m: View, v': View, key: ItemKey, c: Call, asked: seq<ItemKey>, files: seq<File>,
      finalize: bool)
    requires c.LookUp? && asked != [] && c.id == asked[0] && v' == Called(m, c)
    requires Underway(v, m, key, Due(key, asked, [], c.mustInclude), files, finalize)
    ensures Advanced(v, v', finalize)
    ensures if c.found.LookupError? then HasFailure(Since(v, v'), finalize)
            else Underway(v, v', key, Due(key, asked[1..], c.found.Objects(), c.mustInclude), files, finalize)
  {
    PaidFirst(key, asked, c);
    LookUpStep(v, m, c, Due(key, asked, [], c.mustInclude), files, finalize);
    LookUpNoted(v, m, v', c, key, finalize);
  }

  /** The look-up itself is the first call since `m`. */
  lemma LookUpNoted(v: View, m: View, v': View, c: Call, key: ItemKey, finalize: bool)
    requires c.LookUp? && v.trace <= m.trace && v' == Called(m, c) && GrownBy(v, m, {key})
    requires Clean(Since(v, m), {key}, finalize)
    ensures v.trace <= v'.trace
    ensures if c.found.LookupError? then HasFailure(Since(v, v'), finalize) else Clean(Since(v, v'), {key}, finalize)
    ensures GrownBy(v, v', {key}) && WantedOf(c.found.Objects(), c.mustInclude) <= FoundKeys(Since(v, v'))
  {
    SinceJoins(v, m, v');
    SinceOne(m, c);
    assert c in Since(v, v');
    if !c.found.LookupError? {
      CleanFurther(Since(v, m), [c], {key}, finalize);
    }
    FoundKeysJoin(Since(v, m), [c]);
  }

  lemma PaidFirst(key: ItemKey, asked: seq<ItemKey>, c: Call)
    requires c.LookUp? && asked != [] && c.id == asked[0]
    ensures var debt := Due(key, asked, [], c.mustInclude);
            && (c.id, c.mustInclude) in debt.owed
            && debt.(owed := debt.owed - LookedUpBy(c), due := c.found.Objects(), mustInclude := c.mustInclude)
               == Due(key, asked[1..], c.found.Objects(), c.mustInclude)
  {
    FirstRequest(asked, c.mustInclude);
    assert RequestsOf(asked, c.mustInclude) - LookedUpBy(c) == RequestsOf(asked[1..], c.mustInclude);
  }

  lemma {:induction false} FirstRequest(additional: seq<ItemKey>, mustInclude: bool)
    requires additional != []
    ensures RequestsOf(additional, mustInclude) ==
            multiset{(additional[0], mustInclude)} + RequestsOf(additional[1..], mustInclude)
  {
    var n, rest := |additional| - 1, additional[1..];
    if n > 0 {
      var front := additional[..n];
      FirstRequest(front, mustInclude);
      assert rest[..n - 1] == front[1..] && rest[n - 1] == additional[n];
    }
  }

  /** What backing up an item leaves behind, success or not. */
  ghost predicate BackedUpItem(m: View, v': View, o: Object, mustInclude: bool, selected: bool, more: seq<File>,
                               failed: bool, finalize: bool) {
    && Advanced(m, v', finalize)
    && (failed ==> HasFailure(Since(m, v'), finalize))
    && (!failed ==>
          && Clean(Since(m, v'), {}, finalize)
          && Complete(m, v', NO_DEBT, more, finalize) && GrownBy(m, v', WantedOf([o], mustInclude))
          && NewFiles(more, m.backedUp, v'.backedUp, v'.archive) && (!finalize ==> more == [])
          && (if selected then Wanted(o, mustInclude) && o.key in v'.backedUp
              else !Wanted(o, mustInclude) || SkippedIn(Since(m, v'), o.key)))
  }

  /** The same before the item's files have been written. */
  ghost predicate Prepared(m: View, v': View, o: Object, mustInclude: bool, selected: bool, files: seq<File>,
                           failed: bool, finalize: bool) {
    && Advanced(m, v', finalize)
    && (failed ==> HasFailure(Since(m, v'), finalize))
    && (!failed ==>
          && Clean(Since(m, v'), {}, finalize)
          && Complete(m, v', NO_DEBT, files, finalize) && GrownBy(m, v', WantedOf([o], mustInclude))
          && NewFiles(files, m.backedUp, v'.backedUp, v'.archive)
          && (if selected then Wanted(o, mustInclude) && o.key in v'.backedUp
              else files == [] && (!Wanted(o, mustInclude) || SkippedIn(Since(m, v'), o.key))))
  }

  /** One of the objects due has been backed up, or rightly left out, or something has failed. */
  lemma RunningObject(v: View, m: View, v': View, key: ItemKey, p: Progress, rest: seq<ItemKey>, due: seq<Object>,
      mustInclude: bool, files: seq<File>, more: seq<File>, selected: bool, failed: bool, finalize: bool)
    requires due != [] && Running(v, m, key, p, Fetching(rest, due, mustInclude), files, finalize)
    requires BackedUpItem(m, v', due[0], mustInclude, selected, more, failed, finalize)
    ensures Running(v, v', key, p, if failed then Failed else Fetching(rest, due[1..], mustInclude), files + more, finalize)
  {
    SinceJoins(v, m, v');
    if failed {
      AdvancedFurther(v, m, v', finalize);
      FailureStays(v, m, v', finalize);
    } else {
      UnderwayFurther(v, m, v', key, Due(key, rest, due, mustInclude), files, more, WantedOf([due[0]], mustInclude),
        finalize);
      PayObject(v, v', Due(key, rest, due, mustInclude), due[1..], files + more, finalize);
    }
  }

  lemma Fetched(v: View, m: View, key: ItemKey, p: Progress, mustInclude: bool, files: seq<File>, finalize: bool)
    requires Running(v, m, key, p, Fetching([], [], mustInclude), files, finalize)
    ensures Running(v, m, key, p, Between, files, finalize)
  {
    FlagIrrelevant(v, m, Due(key, [], [], mustInclude), false, files, finalize);
  }

  /** The actions run for an item: all of them, none skipping it, or those up to one that skipped it. */
  ghost predicate RanActions(t: seq<Call>, key: ItemKey, actions: nat, selected: bool) {
    if selected then ActionsOf(t, key) == UpTo(actions) && !SkippedIn(t, key)
    else SkippedIn(t, key) && exists m :: 0 < m <= actions && ActionsOf(t, key) == UpTo(m)
  }

  /** The object's own files, all under the given name: one with the version and, ahead of it, one without the version
      exactly for the preferred version. */
  ghost predicate HasOwnFiles(o: Object, name: ItemName, files: seq<File>) {
    && File(o.key, true, name) in files
    && (File(o.key, false, name) in files <==> o.preferredVersion)
    && (forall f | f in files && f.owner == o.key :: f == File(o.key, true, name) || f == File(o.key, false, name))
    && (forall i, j | 0 <= i < |files| && 0 <= j < |files| ::
          files[i] == File(o.key, false, name) && files[j] == File(o.key, true, name) ==> i < j)
  }

  /** What becomes of an item that is wanted and new: all its actions are run, and its files bear the name they gave it;
      unless an action skips it, and then it has no files. `files` are those in the archive and those still to come. */
  ghost predicate NewItem(t: seq<Call>, o: Object, actions: nat, selected: bool, files: seq<File>) {
    && RanActions(t, o.key, actions, selected)
    && (if selected then HasOwnFiles(o, NameAfter(t, o.key), files) else o.key !in Owners(files))
  }

  /** All actions are done: the item's own files are added. */
  lemma FinishRunning(v: View, m: View, o: Object, mustInclude: bool, p: Progress, files: seq<File>, finalize: bool)
    requires Running(v, m, o.key, p, Between, files, finalize) && Wanted(o, mustInclude)
    requires !p.skipped && !p.volumeErrors
    ensures Prepared(v, m, o, mustInclude, true, files + FilesOf(o, p.path), false, finalize)
    ensures NewItem(Since(v, m), o, p.actions, true, m.archive + (files + FilesOf(o, p.path)))
  {
    OwnFilesStep(v, m, o, p.path, files, finalize);
    AddOwnFiles(o, p.path, files, v.backedUp, m.backedUp, m.archive);
    Settle(Since(v, m), o.key, p, finalize);
    assert o in [o];
    OwnersJoin(m.archive, files);
    assert o.key in v.backedUp + {o.key};
    OwnFilesOnly(o, p.path, m.archive + files);
    Regroup(m.archive, files, FilesOf(o, p.path));
  }

  /** With no error among the item's volumes, or with the item skipped, nothing is pending any more. */
  lemma Settle(t: seq<Call>, key: ItemKey, p: Progress, finalize: bool)
    requires Clean(t, {key}, finalize) && Acted(t, key, p) && (p.skipped || !p.volumeErrors)
    ensures Clean(t, {}, finalize)
  {
    forall c | c in t && c.IsFailure(finalize)
      ensures c.Volumes? && SkippedIn(t, c.item)
    {
      if c.Volumes? && c.item == key {
        assert c == Volumes(key, true);
      }
    }
  }

  lemma OwnFilesOnly(o: Object, name: ItemName, others: seq<File>)
    requires o.key !in Owners(others)
    ensures HasOwnFiles(o, name, others + FilesOf(o, name))
  {
    var own, all := FilesOf(o, name), others + FilesOf(o, name);
    forall f | f in others
      ensures f.owner != o.key
    {
    }
    assert own[|own| - 1] == File(o.key, true, name);
    assert all[|all| - 1] == File(o.key, true, name);
    assert o.preferredVersion ==> own[0] == File(o.key, false, name) && own[0] in all;
    forall f | f in all && f.owner == o.key
      ensures f in own
    {
    }
  }

  /** An action has skipped the item. */
  lemma SkipRunning(v: View, m: View, o: Object, mustInclude: bool, p: Progress, actions: nat, files: seq<File>,
      finalize: bool)
    requires Running(v, m, o.key, p, Between, files, finalize) && p.skipped
    requires 0 < p.actions <= actions
    ensures var v' := m.(backedUp := m.backedUp - {o.key});
            && Prepared(v, v', o, mustInclude, false, [], false, finalize)
            && NewItem(Since(v, v'), o, actions, false, v'.archive + [])
  {
    SkipStep(v, m, o.key, files, finalize);
    assert Since(v, m.(backedUp := m.backedUp - {o.key})) == Since(v, m);
    Settle(Since(v, m), o.key, p, finalize);
    assert m.archive + [] == m.archive;
  }

  lemma AddOwnFiles(o: Object, path: ItemName, files: seq<File>, items: set<ItemKey>, now: set<ItemKey>,
      archive: seq<File>)
    requires o.key !in items && o.key in now && o.key !in Owners(archive)
    requires NewFiles(files, items + {o.key}, now, archive)
    ensures NewFiles(files + FilesOf(o, path), items, now, archive)
  {
    var own := FilesOf(o, path);
    forall k
      ensures k in Owners(own) <==> k == o.key
    {
      assert own[0] in own;
    }
    assert o.key in items + {o.key};
    JoinKeepsNoRepeats(files, own);
  }

  /** The item's files are written, all of them or up to a failure. */
  lemma Written(v: View, m: View, v': View, o: Object, mustInclude: bool, files: seq<File>, k: nat, failed: bool)
    requires Prepared(v, m, o, mustInclude, true, files, false, false)
    requires k <= |files| && (!failed ==> k == |files|)
    requires m.trace <= v'.trace && OnlyTries(Since(m, v'))
    requires v' == m.(archive := m.archive + files[..k], trace := v'.trace)
    requires if failed then HasFailure(Since(m, v'), false) else Clean(Since(m, v'), {}, false)
    ensures BackedUpItem(v, v', o, mustInclude, !failed, [], failed, false)
  {
    WriteStep(v, m, v', files, k);
    if failed {
      FailureStays(v, m, v', false);
    } else {
      SinceJoins(v, m, v');
      CleanFurther(Since(v, m), Since(m, v'), {}, false);
      FoundKeysJoin(Since(v, m), Since(m, v'));
    }
  }

  lemma NewItemWritten(v: View, m: View, v': View, o: Object, actions: nat, files: seq<File>)
    requires v.trace <= m.trace <= v'.trace && OnlyTries(Since(m, v'))
    requires NewItem(Since(v, m), o, actions, true, m.archive + files) && v'.archive == m.archive + files
    ensures NewItem(Since(v, v'), o, actions, true, v'.archive + [])
  {
    TriesAreNoActions(v, m, v', o.key);
    assert v'.archive + [] == v'.archive;
  }

  // ----- Two items in one file -----

  ghost predicate SamePath(f: File, g: File) {
    f.owner.resource == g.owner.resource && f.versioned == g.versioned && f.path == g.path
  }

  /** Without renaming, files of different items have different paths. */
  lemma UnrenamedFilesAreDistinct(files: seq<File>, i: nat, j: nat)
    requires NoRepeats(files) && i < |files| && j < |files| && i != j
    requires forall f | f in files :: f.path == ItemName(f.owner.namespace, f.owner.name)
    ensures !SamePath(files[i], files[j])
  {
    assert files[i] in files && files[j] in files;
  }
}
