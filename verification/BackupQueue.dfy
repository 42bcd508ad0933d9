/**
 The admission rules of the backup queue, over the API server's view of the backups.

 `namespaces` stands for the namespace list resolved for conflict detection. It is fixed per backup: the list of
 cluster namespaces is taken not to change while backups wait.
 */
module BackupQueue {
  import opened BackupPhases

  type Name = string

  datatype Backup = Backup(phase: Phase, queuePosition: int, namespaces: set<string>)

  type Api = map<Name, Backup>

  predicate IsQueued(api: Api, n: Name) {
    n in api && api[n].phase.Queued?
  }

  predicate IsRunning(api: Api, n: Name) {
    n in api && api[n].phase.IsRunning()
  }

  function Position(api: Api, n: Name): int {
    if n in api then api[n].queuePosition else 0
  }

  /** The backups the lister keeps: Queued, ReadyToStart and InProgress. */
  predicate Listed(b: Backup) {
    b.phase.Queued? || b.phase.IsRunning()
  }

  predicate Overlap(a: Backup, b: Backup) {
    a.namespaces * b.namespaces != {}
  }

  /** Both are queued and `a` stands in front of `b`. */
  predicate Before(api: Api, a: Name, b: Name) {
    IsQueued(api, a) && IsQueued(api, b) && api[a].queuePosition < api[b].queuePosition
  }

  /** `e` is one of the backups ahead of `n` and shares a namespace with it. */
  predicate Blocks(api: Api, e: Name, n: Name) {
    && e in api && n in api
    && Listed(api[e]) && api[e].queuePosition < api[n].queuePosition
    && Overlap(api[e], api[n])
  }

  /** A queued backup is blocked by whoever shares a namespace with it and either runs or waits at a lower position. */
  lemma WhatBlocks(api: Api, e: Name, n: Name)
    requires WellPositioned(api) && n in api && api[n].phase.Queued?
    ensures Blocks(api, e, n) <==>
              && e in api && api[e].namespaces * api[n].namespaces != {}
              && (|| api[e].phase.ReadyToStart? || api[e].phase.InProgress?
                  || (api[e].phase.Queued? && api[e].queuePosition < api[n].queuePosition))
  {
  }

  ghost predicate Runnable(api: Api, n: Name) {
    n in api && forall e | e in api :: !Blocks(api, e, n)
  }

  /** The checks that follow the slot count: no conflict, and nobody ahead could run instead. */
  ghost predicate Admissible(api: Api, n: Name) {
    IsQueued(api, n) && Runnable(api, n) && forall e | Before(api, e, n) :: !Runnable(api, e)
  }

  /** Queued backups hold distinct positions from 1 up, everyone else holds 0. */
  ghost predicate WellPositioned(api: Api) {
    && (forall n | n in api :: if api[n].phase.Queued? then api[n].queuePosition >= 1 else api[n].queuePosition == 0)
    && (forall m, n | IsQueued(api, m) && IsQueued(api, n) && m != n :: api[m].queuePosition != api[n].queuePosition)
  }

  /** The highest position in use, 0 when the queue is empty. */
  ghost predicate IsMaxPosition(api: Api, max: int) {
    && (forall n | IsQueued(api, n) :: api[n].queuePosition <= max)
    && (if exists n :: IsQueued(api, n) then exists n :: IsQueued(api, n) && api[n].queuePosition == max else max == 0)
  }

  ghost predicate Distinct(order: seq<Name>) {
    forall i, j | 0 <= i < j < |order| :: order[i] != order[j]
  }

  ghost predicate InOrder(api: Api, order: seq<Name>) {
    forall i, j | 0 <= i < j < |order| :: Position(api, order[i]) <= Position(api, order[j])
  }

  /** `order` lists exactly `members`, each once, by position. */
  ghost predicate ListsByPosition(api: Api, members: set<Name>, order: seq<Name>) {
    && Distinct(order)
    && (forall n :: n in order <==> n in members)
    && InOrder(api, order)
  }

  ghost predicate IsQueue(api: Api, order: seq<Name>) {
    ListsByPosition(api, (set n | n in api && IsQueued(api, n)), order)
  }

  /** `order` lists the queued backups of `api`, all but `skip`, by position. */
  ghost predicate IsRemainingQueue(api: Api, skip: Name, order: seq<Name>) {
    ListsByPosition(api, (set n | n in api && IsQueued(api, n) && n != skip), order)
  }

  function Enqueue(api: Api, n: Name, position: int): Api
    requires n in api
  {
    api[n := api[n].(phase := Phase.Queued, queuePosition := position)]
  }

  function Dequeue(api: Api, n: Name): Api
    requires n in api
  {
    api[n := api[n].(phase := ReadyToStart, queuePosition := 0)]
  }

  function SetPosition(api: Api, n: Name, position: int): Api
    requires n in api
  {
    api[n := api[n].(queuePosition := position)]
  }

  /** The queue seen before and after a successful dequeue of `n`: same order, same namespaces, `n` now running. */
  ghost predicate DequeuedOne(before: Api, n: Name, after: Api) {
    && before.Keys == after.Keys && IsQueued(before, n)
    && after[n] == Dequeue(before, n)[n]
    && (forall m | m in before && m != n ::
          after[m] == before[m].(queuePosition := after[m].queuePosition))
    && (forall m | m in before && !IsQueued(before, m) :: after[m] == before[m])
    && (forall a, b | a != n && b != n :: Before(before, a, b) <==> Before(after, a, b))
  }

  /** The first `k` renumbering patches, positions counted from 1. */
  function Renumbered(api: Api, order: seq<Name>, k: nat): Api
    requires k <= |order|
    requires forall n | n in order :: n in api
    ensures Renumbered(api, order, k).Keys == api.Keys
  {
    if k == 0 then api else SetPosition(Renumbered(api, order, k - 1), order[k - 1], k)
  }

  /** After `k` patches the first `k` hold 1..k, and nothing else has changed. */
  lemma {:induction false} RenumberedAt(api: Api, order: seq<Name>, k: nat, n: Name)
    requires k <= |order| && Distinct(order) && n in api
    requires forall m | m in order :: m in api
    ensures Renumbered(api, order, k)[n] ==
            if n in order[..k] then api[n].(queuePosition := IndexOf(order, n) + 1) else api[n]
  {
    if k > 0 {
      RenumberedAt(api, order, k - 1, n);
      assert order[..k] == order[..k - 1] + [order[k - 1]];
      assert IndexOf(order, order[k - 1]) == k - 1;
    }
  }

  function IndexOf(order: seq<Name>, n: Name): (i: nat)
    ensures n in order ==> i < |order| && order[i] == n
    ensures n in order && Distinct(order) ==> forall j | 0 <= j < |order| && order[j] == n :: j == i
  {
    if order == [] || order[0] == n then 0 else
      assert forall j | 1 <= j < |order| :: order[j] == order[1..][j - 1];
      1 + IndexOf(order[1..], n)
  }

  // ----- Renumbering may stop at any patch -----

  /** Sorted distinct positions from 1 up leave room: the i-th is at least i + 1. */
  lemma {:induction false} SortedPositionsLeaveRoom(api: Api, skip: Name, order: seq<Name>, i: nat)
    requires WellPositioned(api) && IsRemainingQueue(api, skip, order)
    requires i < |order|
    ensures Position(api, order[i]) >= i + 1
    ensures forall j | i < j < |order| :: Position(api, order[j]) > Position(api, order[i])
  {
    assert order[i] in order;
    forall j | i < j < |order|
      ensures Position(api, order[j]) > Position(api, order[i])
    {
      assert order[j] in order;
    }
    if i > 0 {
      SortedPositionsLeaveRoom(api, skip, order, i - 1);
    }
  }

  /** Where everybody stands after the dequeue of `skip` and `k` renumbering patches. */
  lemma RenumberedPositions(api: Api, skip: Name, order: seq<Name>, k: nat)
    requires WellPositioned(api) && IsRemainingQueue(api, skip, order) && IsQueued(api, skip)
    requires k <= |order|
    ensures forall n | n in order :: n in api
    ensures var after := Renumbered(Dequeue(api, skip), order, k);
            && (forall i | 0 <= i < |order| :: after[order[i]] ==
                  if i < k then api[order[i]].(queuePosition := i + 1) else api[order[i]])
            && (forall n | n in api && n !in order :: after[n] == Dequeue(api, skip)[n])
  {
    var mid := Dequeue(api, skip);
    var after := Renumbered(mid, order, k);
    forall i | 0 <= i < |order|
      ensures order[i] in order && IsQueued(api, order[i])
    {
      assert order[i] in order;
    }
    forall n | n in api
      ensures after[n] == if n in order[..k] then mid[n].(queuePosition := IndexOf(order, n) + 1) else mid[n]
    {
      RenumberedAt(mid, order, k, n);
    }
    forall i | 0 <= i < |order|
      ensures after[order[i]] == if i < k then api[order[i]].(queuePosition := i + 1) else api[order[i]]
    {
      assert order[i] in order && IndexOf(order, order[i]) == i;
      assert order[i] in order[..k] <==> i < k;
    }
  }

  /** The remaining queue is strictly increasing, whether or not the renumbering got to the end. */
  lemma RenumberedIsIncreasing(api: Api, skip: Name, order: seq<Name>, k: nat, i: nat, j: nat)
    requires WellPositioned(api) && IsRemainingQueue(api, skip, order) && IsQueued(api, skip)
    requires k <= |order| && i < j < |order|
    ensures forall n | n in order :: n in api
    ensures var after := Renumbered(Dequeue(api, skip), order, k);
            && 1 <= Position(after, order[i]) < Position(after, order[j])
            && Position(api, order[i]) < Position(api, order[j])
  {
    RenumberedPositions(api, skip, order, k);
    SortedPositionsLeaveRoom(api, skip, order, i);
    SortedPositionsLeaveRoom(api, skip, order, j);
    assert order[i] in order && order[j] in order;
  }

  lemma RenumberedEntry(api: Api, skip: Name, order: seq<Name>, k: nat, n: Name)
    requires WellPositioned(api) && IsRemainingQueue(api, skip, order) && IsQueued(api, skip)
    requires k <= |order| && n in api && n != skip
    ensures forall m | m in order :: m in api
    ensures var after := Renumbered(Dequeue(api, skip), order, k);
            && after[n] == api[n].(queuePosition := Position(after, n))
            && (if IsQueued(api, n) then Position(after, n) >= 1 else after[n] == api[n])
  {
    RenumberedPositions(api, skip, order, k);
    if n in order {
      var i := IndexOf(order, n);
      SortedPositionsLeaveRoom(api, skip, order, i);
    }
  }

  lemma RenumberedPair(api: Api, skip: Name, order: seq<Name>, k: nat, a: Name, b: Name)
    requires WellPositioned(api) && IsRemainingQueue(api, skip, order) && IsQueued(api, skip)
    requires k <= |order| && a in order && b in order && a != b
    ensures forall m | m in order :: m in api
    ensures var after := Renumbered(Dequeue(api, skip), order, k);
            && (Position(api, a) < Position(api, b) <==> Position(after, a) < Position(after, b))
            && Position(after, a) != Position(after, b)
  {
    var i, j := IndexOf(order, a), IndexOf(order, b);
    if i < j {
      RenumberedIsIncreasing(api, skip, order, k, i, j);
    } else {
      RenumberedIsIncreasing(api, skip, order, k, j, i);
    }
  }

  /** The facts entry by entry and pair by pair, gathered. */
  lemma GatherRenumbered(api: Api, skip: Name, order: seq<Name>, after: Api)
    requires WellPositioned(api) && IsRemainingQueue(api, skip, order) && IsQueued(api, skip)
    requires after.Keys == api.Keys && after[skip] == Dequeue(api, skip)[skip]
    requires forall n | n in api && n != skip :: after[n] == api[n].(queuePosition := Position(after, n))
    requires forall n | n in api && n != skip ::
               if IsQueued(api, n) then Position(after, n) >= 1 else after[n] == api[n]
    requires forall a, b | a in order && b in order && a != b ::
               && (Position(api, a) < Position(api, b) <==> Position(after, a) < Position(after, b))
               && Position(after, a) != Position(after, b)
    ensures WellPositioned(after) && DequeuedOne(api, skip, after)
  {
    forall n
      ensures IsQueued(after, n) <==> n in order
    {
    }
    forall a, b | a != skip && b != skip
      ensures Before(api, a, b) <==> Before(after, a, b)
    {
      if a in order && b in order {
      }
    }
  }

  /** However many of the renumbering patches succeed, positions stay distinct and ordered; all of them give 1..n. */
  lemma RenumberingKeepsTheQueue(api: Api, skip: Name, order: seq<Name>, k: nat)
    requires WellPositioned(api) && IsRemainingQueue(api, skip, order) && IsQueued(api, skip)
    requires k <= |order|
    ensures forall n | n in order :: n in api
    ensures var after := Renumbered(Dequeue(api, skip), order, k);
            && WellPositioned(after)
            && DequeuedOne(api, skip, after)
            && (k == |order| ==> forall i | 0 <= i < |order| :: Position(after, order[i]) == i + 1)
  {
    var after := Renumbered(Dequeue(api, skip), order, k);
    RenumberedPositions(api, skip, order, k);
    forall n | n in api && n != skip
      ensures after[n] == api[n].(queuePosition := Position(after, n))
      ensures if IsQueued(api, n) then Position(after, n) >= 1 else after[n] == api[n]
    {
      RenumberedEntry(api, skip, order, k, n);
    }
    forall a, b | a in order && b in order && a != b
      ensures Position(api, a) < Position(api, b) <==> Position(after, a) < Position(after, b)
      ensures Position(after, a) != Position(after, b)
    {
      RenumberedPair(api, skip, order, k, a, b);
    }
    GatherRenumbered(api, skip, order, after);
  }

  // ----- Dequeuing one backup does not disturb the others -----

  /** Dequeuing an admissible backup never changes whether another queued backup is runnable. */
  lemma DequeueKeepsRunnability(before: Api, n: Name, after: Api, m: Name)
    requires WellPositioned(before) && WellPositioned(after)
    requires Admissible(before, n) && DequeuedOne(before, n, after)
    requires IsQueued(before, m) && m != n
    ensures Runnable(before, m) <==> Runnable(after, m)
  {
    forall e | e in before && e != n
      ensures Blocks(before, e, m) <==> Blocks(after, e, m)
    {
      if IsQueued(before, e) {
        assert Before(before, e, m) <==> Before(after, e, m);
      }
    }
    if Before(before, m, n) {
      // Nobody ahead of n was runnable, and what blocks m blocks it still.
      assert !Runnable(before, m);
      var e :| e in before && Blocks(before, e, m);
      assert e != n;
      assert Blocks(after, e, m);
    } else {
      assert before[n].queuePosition < before[m].queuePosition;
      assert Blocks(before, n, m) <==> Blocks(after, n, m);
    }
  }
}
