/**
 The durable run store as the class the hub uses, its transactions executed statement by
 statement. Each method is tied to the ledger transaction it carries out.
*/
module RunStore {
  import opened Prelude
  import opened RunLedger
  import opened RunQueue
  import Text

  /** ORDER BY createdAt ASC, id ASC. */
  predicate QueuedBefore(db: Db, a: RunId, b: RunId)
    requires a in db.runs && b in db.runs
  {
    db.runs[a].createdAt < db.runs[b].createdAt
    || (db.runs[a].createdAt == db.runs[b].createdAt && Text.Less(a, b))
  }

  ghost predicate InQueueOrder(db: Db, ids: seq<RunId>)
    requires forall id :: id in ids ==> id in db.runs
  {
    forall i, j :: 0 <= i < j < |ids| ==> QueuedBefore(db, ids[i], ids[j])
  }

  /** A running row, not excluded, whose last sign of life is at or before `staleBefore`. */
  predicate Stale(db: Db, id: RunId, excluded: set<RunId>, staleBefore: Time) {
    HasState(db, id, Running) && id !in excluded && LastSeen(db.runs[id]) <= staleBefore
  }

  function LastSeen(row: Row): Time {
    if row.heartbeatAt.Some? then row.heartbeatAt.value
    else if row.startedAt.Some? then row.startedAt.value
    else row.createdAt
  }

  lemma QueuedBeforeTransitive(db: Db, a: RunId, b: RunId, c: RunId)
    requires a in db.runs && b in db.runs && c in db.runs
    requires QueuedBefore(db, a, b) && QueuedBefore(db, b, c)
    ensures QueuedBefore(db, a, c)
  {
    if Text.Less(a, b) && Text.Less(b, c) { Text.LessTransitive(a, b, c); }
  }

  /** The ledger after a cancel request whose UPDATE finds the ledger `meanwhile`. */
  function RequestedCancel(db: Db, id: RunId, error: string, now: Time, meanwhile: Db): Db {
    if id !in db.runs || db.runs[id].state.Terminal() then db
    else CancelUpdate(meanwhile, id, db.runs[id].state, error, now)
  }

  class DurableRunStore {
    var runs: map<RunId, Row>
    var leases: map<Resource, RunId>
    var nextRowid: nat

    function Contents(): Db
      reads this
    {
      Db(runs, leases, nextRowid)
    }

    constructor ()
      ensures Contents() == EMPTY_DB
    {
      runs, leases, nextRowid := map[], map[], 0;
    }

    method Create(id: RunId, project: string, dependsOn: Option<RunId>, raw: seq<string>, now: Time)
      modifies this
      ensures Contents() == RunLedger.Create(old(Contents()), id, project, dependsOn, NormalizeResources(raw), now)
      ensures id in old(runs) ==> Contents() == old(Contents())
      ensures id !in old(runs) ==>
                && runs == old(runs)[id := Row(old(nextRowid), project, dependsOn, NormalizeResources(raw), Queued, now,
                                               None, None, None, NO_RECEIPT, false, None)]
                && nextRowid == old(nextRowid) + 1 && leases == old(leases)
    {
      if id in runs { return; }
      runs := runs[id := Row(nextRowid, project, dependsOn, NormalizeResources(raw), Queued, now,
                             None, None, None, NO_RECEIPT, false, None)];
      nextRowid := nextRowid + 1;
    }

    /** Is some resource leased by another run? */
    method LeasedElsewhere(id: RunId, resources: seq<Resource>) returns (found: bool)
      ensures found <==> Contended(Contents(), id, resources)
      ensures found <==> exists r :: r in resources && r in leases && leases[r] != id
    {
      for i := 0 to |resources|
        invariant forall k :: 0 <= k < i ==> resources[k] !in leases || leases[resources[k]] == id
      {
        if resources[i] in leases && leases[resources[i]] != id { return true; }
      }
      found := false;
    }

    /** One INSERT OR IGNORE per resource; an ignored insert releases everything and stops. */
    method InsertLeases(id: RunId, resources: seq<Resource>) returns (ok: bool)
      requires !Contended(Contents(), id, resources)
      modifies this`leases
      ensures ok <==> !InsertIgnored(old(Contents()), resources)
      ensures ok ==> leases == AcquireLeases(old(leases), resources, id)
      ensures !ok ==> leases == ReleaseLeases(AcquireLeases(old(leases), resources, id), id)
    {
      ghost var before := Contents();
      for i := 0 to |resources|
        invariant leases == AcquireLeases(before.leases, resources[..i], id)
        invariant !InsertIgnored(before, resources[..i])
      {
        InsertOne(before, resources, i, id);
        if resources[i] in leases {
          leases := ReleaseLeases(leases, id);
          return false;
        }
        leases := leases[resources[i] := id];
      }
      assert resources[..|resources|] == resources;
      ok := true;
    }

    /** The claim transaction: check every owner, insert every lease, then start the run. */
    method TryClaim(id: RunId, now: Time) returns (ok: bool)
      modifies this
      ensures (Contents(), ok) == RunLedger.TryClaim(old(Contents()), id, now)
      ensures ok <==>
                && id in old(runs) && old(runs)[id].state == Queued && Distinct(old(runs)[id].resources)
                && forall r :: r in old(runs)[id].resources ==> r !in old(leases)
      ensures ok ==>
                && runs == old(runs)[id := old(runs)[id].(state := Running, startedAt := Some(now), heartbeatAt := Some(now))]
                && leases == old(leases) + map r | r in old(runs)[id].resources :: id
      ensures !ok ==> runs == old(runs)
    {
      if id !in runs || !runs[id].state.Queued? { return false; }
      var resources := runs[id].resources;
      var contended := LeasedElsewhere(id, resources);
      if contended { return false; }
      ok := InsertLeases(id, resources);
      if !ok { return; }
      runs := runs[id := runs[id].(state := Running, startedAt := Some(now), heartbeatAt := Some(now))];
    }

    method Finish(id: RunId, state: RunState, receipt: Receipt, now: Time) returns (changed: bool)
      modifies this
      ensures (Contents(), changed) == RunLedger.Finish(old(Contents()), id, state, receipt, now)
      ensures changed <==> id in old(runs) && old(runs)[id].state == Running
      ensures changed ==>
                && runs == old(runs)[id := old(runs)[id].(
                     state := state, completedAt := Some(now), heartbeatAt := Some(now), receipt := receipt)]
                && leases == map r | r in old(leases) && old(leases)[r] != id :: old(leases)[r]
      ensures !changed ==> Contents() == old(Contents())
    {
      changed := id in runs && runs[id].state.Running?;
      if changed {
        runs := runs[id := runs[id].(state := state, completedAt := Some(now), heartbeatAt := Some(now), receipt := receipt)];
        leases := ReleaseLeases(leases, id);
      }
    }

    /** Between two statements, other processes sharing the database may have left it in another state. */
    method OthersAct(meanwhile: Db)
      modifies this
      ensures Contents() == meanwhile
    {
      runs, leases, nextRowid := meanwhile.runs, meanwhile.leases, meanwhile.nextRowid;
    }

    /** requestCancel reads the row, then updates it under the condition that it is still as it was read. */
    method RequestCancel(id: RunId, error: string, now: Time, meanwhile: Db)
      modifies this
      ensures Contents() == RequestedCancel(old(Contents()), id, error, now, meanwhile)
      ensures id !in old(runs) || old(runs)[id].state !in {Queued, Running} ==> Contents() == old(Contents())
      ensures id in old(runs) && old(runs)[id].state in {Queued, Running} ==>
                && leases == meanwhile.leases && nextRowid == meanwhile.nextRowid
                && runs == (if id !in meanwhile.runs || meanwhile.runs[id].state != old(runs)[id].state then meanwhile.runs
                            else if old(runs)[id].state == Queued then
                              meanwhile.runs[id := meanwhile.runs[id].(
                                state := Cancelled, cancelRequested := true, completedAt := Some(now),
                                receipt := meanwhile.runs[id].receipt.(error := Some(error)))]
                            else meanwhile.runs[id := meanwhile.runs[id].(cancelRequested := true)])
    {
      if id !in runs || (!runs[id].state.Queued? && !runs[id].state.Running?) { return; }
      var read := runs[id].state;
      OthersAct(meanwhile);
      if id !in runs || runs[id].state != read { return; }
      if read.Queued? {
        runs := runs[id := runs[id].(state := Cancelled, cancelRequested := true, completedAt := Some(now),
                                     receipt := runs[id].receipt.(error := Some(error)))];
      } else {
        runs := runs[id := runs[id].(cancelRequested := true)];
      }
    }

    method FailQueued(id: RunId, error: string, now: Time) returns (changed: bool)
      modifies this
      ensures (Contents(), changed) == RunLedger.FailQueued(old(Contents()), id, error, now)
      ensures changed <==> id in old(runs) && old(runs)[id].state == Queued
      ensures leases == old(leases) && nextRowid == old(nextRowid)
      ensures runs == if !changed then old(runs)
                      else old(runs)[id := old(runs)[id].(
                             state := Failed, completedAt := Some(now), heartbeatAt := Some(now),
                             receipt := old(runs)[id].receipt.(error := Some(error), exitCode := None))]
    {
      changed := id in runs && runs[id].state.Queued?;
      if changed {
        runs := runs[id := runs[id].(state := Failed, completedAt := Some(now), heartbeatAt := Some(now),
                                     receipt := runs[id].receipt.(error := Some(error), exitCode := None))];
      }
    }

    /** The queued rows in the order the pump visits them. */
    method QueuedIds() returns (ids: seq<RunId>)
      ensures ListsQueue(Contents(), ids)
      ensures InQueueOrder(Contents(), ids)
      ensures forall id :: id in ids <==> id in runs && runs[id].state == Queued
      ensures forall i, j :: 0 <= i < j < |ids| ==>
                runs[ids[i]].createdAt < runs[ids[j]].createdAt
                || (runs[ids[i]].createdAt == runs[ids[j]].createdAt && Text.Less(ids[i], ids[j]))
    {
      ids := [];
      var rest := QueuedSet(Contents());
      while rest != {}
        invariant rest <= QueuedSet(Contents())
        invariant forall id :: id in ids <==> id in QueuedSet(Contents()) && id !in rest
        invariant InQueueOrder(Contents(), ids)
        decreases rest
      {
        var id :| id in rest;
        ids := InsertById(Contents(), id, ids);
        rest := rest - {id};
      }
      OrderedDistinct(Contents(), ids);
    }

    /** Reads the stale running rows, then moves each to outcome_unknown in one transaction. */
    method ReconcileInterrupted(excluded: set<RunId>, staleBefore: Time, error: string, now: Time)
      returns (interrupted: seq<RunId>)
      modifies this
      ensures Distinct(interrupted)
      ensures forall id :: id in interrupted <==> Stale(old(Contents()), id, excluded, staleBefore)
      ensures Contents() == Reconcile(old(Contents()), interrupted, error, now)
      ensures forall id :: id in interrupted <==>
                && id in old(runs) && old(runs)[id].state == Running && id !in excluded
                && (if old(runs)[id].heartbeatAt.Some? then old(runs)[id].heartbeatAt.value
                    else if old(runs)[id].startedAt.Some? then old(runs)[id].startedAt.value
                    else old(runs)[id].createdAt) <= staleBefore
      ensures runs.Keys == old(runs).Keys
      ensures forall id :: id in runs ==>
                runs[id] == if id !in interrupted then old(runs)[id]
                            else old(runs)[id].(state := OutcomeUnknown, completedAt := Some(now), heartbeatAt := Some(now),
                                                receipt := old(runs)[id].receipt.(error := Some(error)))
      ensures leases == map r | r in old(leases) && old(leases)[r] !in interrupted :: old(leases)[r]
    {
      interrupted := [];
      var rest := set id | id in runs && Stale(Contents(), id, excluded, staleBefore);
      while rest != {}
        invariant Contents() == old(Contents())
        invariant Distinct(interrupted)
        invariant forall id :: id in rest ==> id !in interrupted
        invariant forall id :: id in rest || id in interrupted <==> Stale(Contents(), id, excluded, staleBefore)
        decreases rest
      {
        var id :| id in rest;
        interrupted, rest := interrupted + [id], rest - {id};
      }
      for i := 0 to |interrupted|
        invariant Contents() == Reconcile(old(Contents()), interrupted[..i], error, now)
      {
        assert interrupted[..i + 1][..i] == interrupted[..i];
        if interrupted[i] in runs {
          var _ := Finish(interrupted[i], OutcomeUnknown, runs[interrupted[i]].receipt.(error := Some(error)), now);
        }
      }
      assert interrupted[..|interrupted|] == interrupted;
      ReconcileMeans(old(Contents()), interrupted, error, now);
    }
  }

  /** Reconciling running runs, each once, moves exactly them and releases exactly their leases. */
  lemma {:induction false} ReconcileMeans(db: Db, ids: seq<RunId>, error: string, now: Time)
    requires Distinct(ids) && forall id :: id in ids ==> HasState(db, id, Running)
    ensures var db' := Reconcile(db, ids, error, now);
      && db'.runs.Keys == db.runs.Keys && db'.nextRowid == db.nextRowid
      && (forall id :: id in db.runs ==>
            db'.runs[id] == if id !in ids then db.runs[id]
                            else db.runs[id].(state := OutcomeUnknown, completedAt := Some(now), heartbeatAt := Some(now),
                                              receipt := db.runs[id].receipt.(error := Some(error))))
      && db'.leases == map r | r in db.leases && db.leases[r] !in ids :: db.leases[r]
  {
    if ids != [] {
      var before, last := ids[..|ids| - 1], ids[|ids| - 1];
      assert forall id :: id in ids <==> id in before || id == last;
      assert last !in before;
      ReconcileMeans(db, before, error, now);
    } else {
      assert db.leases == map r | r in db.leases :: db.leases[r];
    }
  }

  /** One INSERT OR IGNORE after the first `i`: it is ignored, or extends the acquired leases. */
  lemma InsertOne(db: Db, resources: seq<Resource>, i: nat, id: RunId)
    requires i < |resources| && !Contended(db, id, resources) && !InsertIgnored(db, resources[..i])
    ensures var held := AcquireLeases(db.leases, resources[..i], id);
            if resources[i] in held then
              InsertIgnored(db, resources)
              && ReleaseLeases(held, id) == ReleaseLeases(AcquireLeases(db.leases, resources, id), id)
            else
              !InsertIgnored(db, resources[..i + 1])
              && held[resources[i] := id] == AcquireLeases(db.leases, resources[..i + 1], id)
  {
    assert resources[..i + 1] == resources[..i] + [resources[i]];
    if resources[i] in AcquireLeases(db.leases, resources[..i], id) {
      InsertOneIgnored(db, resources, i, id);
    } else {
      assert forall r :: r in resources[..i + 1] <==> r in resources[..i] || r == resources[i];
    }
  }

  lemma InsertOneIgnored(db: Db, resources: seq<Resource>, i: nat, id: RunId)
    requires i < |resources| && !Contended(db, id, resources) && !InsertIgnored(db, resources[..i])
    requires resources[i] in AcquireLeases(db.leases, resources[..i], id)
    ensures InsertIgnored(db, resources)
    ensures ReleaseLeases(AcquireLeases(db.leases, resources[..i], id), id) == ReleaseLeases(AcquireLeases(db.leases, resources, id), id)
  {
    if resources[i] in resources[..i] {
      var j :| 0 <= j < i && resources[j] == resources[i];
    }
    ReleaseForgetsAcquired(db.leases, resources, i, id);
  }

  lemma ReleaseForgetsAcquired(leases: map<Resource, RunId>, resources: seq<Resource>, i: nat, id: RunId)
    requires i <= |resources|
    requires forall r :: r in resources && r in leases ==> leases[r] == id
    ensures ReleaseLeases(AcquireLeases(leases, resources[..i], id), id) ==
            ReleaseLeases(AcquireLeases(leases, resources, id), id)
  {
  }

  /** Insertion into a list that is already in queue order. */
  function InsertById(db: Db, id: RunId, ids: seq<RunId>): (r: seq<RunId>)
    requires id in db.runs && id !in ids && (forall x :: x in ids ==> x in db.runs) && InQueueOrder(db, ids)
    ensures forall x :: x in r <==> x == id || x in ids
    ensures InQueueOrder(db, r)
  {
    if ids == [] then [id]
    else
      assert ids == [ids[0]] + ids[1..];
      Text.LessTrichotomy(id, ids[0]);
      if QueuedBefore(db, id, ids[0]) then
        BeforeAll(db, id, ids);
        [id] + ids
      else
        var t := InsertById(db, id, ids[1..]);
        assert forall j :: 0 <= j < |t| ==> QueuedBefore(db, ids[0], t[j]) by {
          forall j | 0 <= j < |t| ensures QueuedBefore(db, ids[0], t[j]) { assert t[j] in t; }
        }
        [ids[0]] + t
  }

  lemma BeforeAll(db: Db, id: RunId, ids: seq<RunId>)
    requires id in db.runs && ids != [] && (forall x :: x in ids ==> x in db.runs)
    requires InQueueOrder(db, ids) && QueuedBefore(db, id, ids[0])
    ensures forall j :: 0 <= j < |ids| ==> QueuedBefore(db, id, ids[j])
  {
    forall j | 0 <= j < |ids| ensures QueuedBefore(db, id, ids[j]) {
      if j > 0 { QueuedBeforeTransitive(db, id, ids[0], ids[j]); }
    }
  }

  lemma OrderedDistinct(db: Db, ids: seq<RunId>)
    requires (forall x :: x in ids ==> x in db.runs) && InQueueOrder(db, ids)
    ensures Distinct(ids)
  {
    forall i, j | 0 <= i < j < |ids| ensures ids[i] != ids[j] {
      assert QueuedBefore(db, ids[i], ids[j]);
      Text.LessIrreflexive(ids[i]);
    }
  }
}
