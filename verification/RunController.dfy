/**
 The process owner: pump, child completion, cancel and shutdown of one hub. A callback of a
 process this hub no longer owns writes nothing.
*/
module RunController {
  import opened Prelude
  import opened RunLedger
  import opened RunQueue
  import opened RunStore

  /** How a local child ended, as its close or error handler sees it. */
  datatype ChildEnd = ChildEnd(spawnError: bool, exitCode: Option<int>, receipt: Receipt)

  /** The four flags of a remote result that decide the recorded state. */
  datatype RemoteEnd = RemoteEnd(outcomeUnknown: bool, cancelled: bool, ok: bool, receipt: Receipt)

  function LocalOutcome(cancelRequested: bool, end: ChildEnd): RunState {
    if cancelRequested then Cancelled
    else if !end.spawnError && end.exitCode == Some(0) then Succeeded
    else Failed
  }

  function RemoteOutcome(end: RemoteEnd): RunState {
    if end.outcomeUnknown then OutcomeUnknown
    else if end.cancelled then Cancelled
    else if end.ok then Succeeded
    else Failed
  }

  class DurableRunController {
    const store: DurableRunStore
    var active: bool
    var pumping: bool
    /** Runs whose process or remote request this hub owns. */
    var owned: set<RunId>
    /** Terminal events this hub journaled, in order. */
    var recorded: seq<(RunId, RunState)>

    constructor (store: DurableRunStore)
      ensures this.store == store && !active && !pumping && owned == {} && recorded == []
    {
      this.store := store;
      active, pumping, owned, recorded := false, false, {}, [];
    }

    method Activate()
      modifies this`active
      ensures active
    {
      active := true;
    }

    /** Shutdown disowns every child; its runs stay `running` for a successor to reconcile. */
    method Shutdown()
      modifies this`active, this`owned
      ensures !active && owned == {}
    {
      active, owned := false, {};
    }

    /**
     One pump pass. `launchFailures` are the claimed runs whose spawn throws. A pass is refused
     while the hub is inactive or another pass of the same hub is under way.
    */
    method Pump(launchFailures: set<RunId>, error: string, now: Time) returns (order: seq<RunId>)
      modifies this`pumping, this`owned, this`recorded, store
      ensures pumping == old(pumping)
      ensures !old(active) || old(pumping) ==>
                order == [] && store.Contents() == old(store.Contents())
                && owned == old(owned) && recorded == old(recorded)
      ensures old(active) && !old(pumping) ==>
                && ListsQueue(old(store.Contents()), order)
                && InQueueOrder(old(store.Contents()), order)
                && store.Contents() == PumpPass(old(store.Contents()), order, launchFailures, error, now)
                && owned == Owners(old(store.Contents()), old(owned), order, launchFailures, error, now)
                && recorded == old(recorded) + Endings(old(store.Contents()), order, launchFailures, error, now)
    {
      order := [];
      if !active || pumping { return; }
      pumping := true;
      order := store.QueuedIds();
      ghost var before := store.Contents();
      for i := 0 to |order|
        invariant store.Contents() == PumpPass(before, order[..i], launchFailures, error, now)
        invariant owned == Owners(before, old(owned), order[..i], launchFailures, error, now)
        invariant recorded == old(recorded) + Endings(before, order[..i], launchFailures, error, now)
        invariant pumping
      {
        assert order[..i + 1][..i] == order[..i];
        PumpRun(order[i], order[i] in launchFailures, error, now);
      }
      assert order[..|order|] == order;
      pumping := false;
    }

    /** The loop body: block on a failed prerequisite, wait for a pending one, or claim and launch. */
    method PumpRun(id: RunId, launchFails: bool, error: string, now: Time)
      modifies this`owned, this`recorded, store
      ensures store.Contents() == PumpOne(old(store.Contents()), id, launchFails, error, now)
      ensures owned == OwnersOne(old(store.Contents()), old(owned), id, launchFails, now)
      ensures recorded == old(recorded) + EndingOne(old(store.Contents()), id, launchFails, now)
      ensures store.runs == old(store.runs) ==> owned == old(owned) && recorded == old(recorded)
      ensures store.runs != old(store.runs) ==>
                && id in store.runs && old(store.runs)[id].state == Queued
                && (store.runs[id].state == Running ==> owned == old(owned) + {id} && recorded == old(recorded))
                && (store.runs[id].state != Running ==>
                      && store.runs[id].state == Failed && recorded == old(recorded) + [(id, Failed)]
                      && (owned == old(owned) || owned == old(owned) - {id}))
    {
      if id !in store.runs { return; }
      var prerequisite := store.runs[id].dependsOn;
      if prerequisite.Some? {
        if Blocked(store.Contents(), prerequisite.value) {
          var blocked := store.FailQueued(id, error, now);
          if blocked { recorded := recorded + [(id, Failed)]; }
          return;
        }
        if !store.runs[prerequisite.value].state.Succeeded? { return; }
      }
      var claimed := store.TryClaim(id, now);
      if !claimed { return; }
      if launchFails {
        owned := owned - {id};
        var changed := store.Finish(id, Failed, NO_RECEIPT.(error := Some(error)), now);
        if changed { recorded := recorded + [(id, Failed)]; }
      } else {
        owned := owned + {id};
      }
    }

    /** Close or error of a local child. */
    method SettleLocal(id: RunId, end: ChildEnd, now: Time)
      modifies this`owned, this`recorded, store
      ensures !old(active) || id !in old(owned) ==>
                store.Contents() == old(store.Contents()) && owned == old(owned) && recorded == old(recorded)
      ensures old(active) && id in old(owned) ==>
                var before := old(store.Contents());
                var outcome := LocalOutcome(id in before.runs && before.runs[id].cancelRequested, end);
                && owned == old(owned) - {id}
                && store.Contents() == RunLedger.Finish(before, id, outcome, end.receipt, now).0
                && recorded == old(recorded) + (if HasState(before, id, Running) then [(id, outcome)] else [])
      ensures old(active) && id in old(owned) && id in old(store.runs) && old(store.runs)[id].state == Running ==>
                && id in store.runs
                && store.runs[id].state == (if old(store.runs)[id].cancelRequested then Cancelled
                                            else if !end.spawnError && end.exitCode == Some(0) then Succeeded
                                            else Failed)
                && store.runs == old(store.runs)[id := old(store.runs)[id].(
                     state := store.runs[id].state, receipt := end.receipt,
                     completedAt := Some(now), heartbeatAt := Some(now))]
                && recorded == old(recorded) + [(id, store.runs[id].state)]
      ensures id !in old(store.runs) || old(store.runs)[id].state != Running ==>
                store.runs == old(store.runs) && recorded == old(recorded)
    {
      if !active || id !in owned { return; }
      owned := owned - {id};
      var outcome := LocalOutcome(id in store.runs && store.runs[id].cancelRequested, end);
      var changed := store.Finish(id, outcome, end.receipt, now);
      if changed { recorded := recorded + [(id, outcome)]; }
    }

    /** The answer of a remote executor. */
    method SettleRemote(id: RunId, end: RemoteEnd, now: Time)
      modifies this`owned, this`recorded, store
      ensures owned == old(owned) - {id}
      ensures !old(active) || id !in old(owned) ==>
                store.Contents() == old(store.Contents()) && recorded == old(recorded)
      ensures old(active) && id in old(owned) ==>
                && store.Contents() == RunLedger.Finish(old(store.Contents()), id, RemoteOutcome(end), end.receipt, now).0
                && recorded == old(recorded) +
                     (if HasState(old(store.Contents()), id, Running) then [(id, RemoteOutcome(end))] else [])
      ensures old(active) && id in old(owned) && id in old(store.runs) && old(store.runs)[id].state == Running ==>
                && id in store.runs
                && store.runs[id].state == (if end.outcomeUnknown then OutcomeUnknown
                                            else if end.cancelled then Cancelled
                                            else if end.ok then Succeeded
                                            else Failed)
                && store.runs == old(store.runs)[id := old(store.runs)[id].(
                     state := store.runs[id].state, receipt := end.receipt,
                     completedAt := Some(now), heartbeatAt := Some(now))]
                && recorded == old(recorded) + [(id, store.runs[id].state)]
      ensures id !in old(store.runs) || old(store.runs)[id].state != Running ==>
                store.runs == old(store.runs) && recorded == old(recorded)
    {
      var ownsResult := active && id in owned;
      owned := owned - {id};
      if !ownsResult { return; }
      var changed := store.Finish(id, RemoteOutcome(end), end.receipt, now);
      if changed { recorded := recorded + [(id, RemoteOutcome(end))]; }
    }

    /** cancel; `meanwhile` is what its UPDATE finds in the shared ledger. */
    method Cancel(project: string, id: RunId, error: string, now: Time, meanwhile: Db) returns (found: bool)
      modifies this`recorded, store
      ensures found <==> id in old(store.runs) && old(store.runs)[id].project == project
      ensures !found ==> store.Contents() == old(store.Contents()) && recorded == old(recorded)
      ensures found ==>
                var db := RequestedCancel(old(store.Contents()), id, error, now, meanwhile);
                && store.Contents() == db
                && recorded == old(recorded) + CancelEnding(old(store.Contents()), db, id)
      ensures found ==>
                recorded == old(recorded) +
                  (if old(store.runs)[id].state == Queued && id in store.runs && store.runs[id].state == Cancelled
                   then [(id, Cancelled)] else [])
    {
      found := id in store.runs && store.runs[id].project == project;
      if !found { return; }
      var wasQueued := store.runs[id].state.Queued?;
      store.RequestCancel(id, error, now, meanwhile);
      if wasQueued && id in store.runs && store.runs[id].state.Cancelled? {
        recorded := recorded + [(id, Cancelled)];
      }
    }
  }

  /** A cancel journals the ending of a run it first saw queued and then saw cancelled. */
  function CancelEnding(before: Db, after: Db, id: RunId): seq<(RunId, RunState)> {
    if HasState(before, id, Queued) && HasState(after, id, Cancelled) then [(id, Cancelled)] else []
  }

  /** Ownership after one loop body. */
  function OwnersOne(db: Db, owned: set<RunId>, id: RunId, launchFails: bool, now: Time): set<RunId> {
    if !LaunchedBy(db, id, now) then owned
    else if launchFails then owned - {id}
    else owned + {id}
  }

  /** The loop body claims the run. */
  predicate LaunchedBy(db: Db, id: RunId, now: Time) {
    && id in db.runs
    && (db.runs[id].dependsOn.Some? ==> HasState(db, db.runs[id].dependsOn.value, Succeeded))
    && TryClaim(db, id, now).1
  }

  function EndingOne(db: Db, id: RunId, launchFails: bool, now: Time): seq<(RunId, RunState)> {
    if id in db.runs && db.runs[id].dependsOn.Some? && Blocked(db, db.runs[id].dependsOn.value) then
      if db.runs[id].state.Queued? then [(id, Failed)] else []
    else if LaunchedBy(db, id, now) && launchFails then [(id, Failed)]
    else []
  }

  function Owners(db: Db, owned: set<RunId>, ids: seq<RunId>, launchFailures: set<RunId>, error: string, now: Time): set<RunId> {
    if ids == [] then owned
    else
      var before := ids[..|ids| - 1];
      var last := ids[|ids| - 1];
      OwnersOne(PumpPass(db, before, launchFailures, error, now),
                Owners(db, owned, before, launchFailures, error, now), last, last in launchFailures, now)
  }

  function Endings(db: Db, ids: seq<RunId>, launchFailures: set<RunId>, error: string, now: Time): seq<(RunId, RunState)> {
    if ids == [] then []
    else
      var before := ids[..|ids| - 1];
      var last := ids[|ids| - 1];
      Endings(db, before, launchFailures, error, now)
      + EndingOne(PumpPass(db, before, launchFailures, error, now), last, last in launchFailures, now)
  }

  /** Ownership after a pass: what was owned before, and exactly the runs it took from queued to running. */
  lemma {:induction false} PumpOwnsRunning(db: Db, owned: set<RunId>, ids: seq<RunId>, launchFailures: set<RunId>, error: string, now: Time)
    requires Sound(db) && forall id :: id in owned ==> HasState(db, id, Running)
    ensures var after := PumpPass(db, ids, launchFailures, error, now);
            forall id :: id in Owners(db, owned, ids, launchFailures, error, now) <==>
              id in owned || (HasState(db, id, Queued) && HasState(after, id, Running))
    ensures forall id :: HasState(db, id, Running) ==> HasState(PumpPass(db, ids, launchFailures, error, now), id, Running)
  {
    if ids != [] {
      var before := ids[..|ids| - 1];
      var last := ids[|ids| - 1];
      PumpOwnsRunning(db, owned, before, launchFailures, error, now);
      PumpPassSound(db, before, launchFailures, error, now);
      var mid := PumpPass(db, before, launchFailures, error, now);
      OneOwnsRunning(mid, Owners(db, owned, before, launchFailures, error, now), last, last in launchFailures, error, now);
      hide Sound, PumpOne, OwnersOne;
      forall id | id in db.runs ensures RowAdvances(db.runs[id], mid.runs[id]) {}
    }
  }

  lemma OneOwnsRunning(db: Db, owned: set<RunId>, id: RunId, launchFails: bool, error: string, now: Time)
    requires Sound(db) && forall x :: x in owned ==> HasState(db, x, Running)
    ensures var after := PumpOne(db, id, launchFails, error, now);
            && (forall x :: x in OwnersOne(db, owned, id, launchFails, now) <==>
                  x in owned || (HasState(db, x, Queued) && HasState(after, x, Running)))
            && (forall x :: HasState(after, x, Running) ==> HasState(db, x, Running) || HasState(db, x, Queued))
            && (forall x :: HasState(db, x, Running) ==> HasState(after, x, Running))
            && after.runs.Keys == db.runs.Keys
  {
    ClaimOutcome(db, id, now);
  }

  /** The endings a pass records are of runs it took from queued to failed, and it records all of those. */
  lemma {:induction false} PumpRecordsFailures(db: Db, ids: seq<RunId>, launchFailures: set<RunId>, error: string, now: Time)
    requires Sound(db)
    ensures var after := PumpPass(db, ids, launchFailures, error, now);
            forall e :: e in Endings(db, ids, launchFailures, error, now) <==>
              e.1 == Failed && HasState(db, e.0, Queued) && HasState(after, e.0, Failed)
  {
    if ids != [] {
      var before := ids[..|ids| - 1];
      var last := ids[|ids| - 1];
      PumpRecordsFailures(db, before, launchFailures, error, now);
      PumpPassSound(db, before, launchFailures, error, now);
      var mid := PumpPass(db, before, launchFailures, error, now);
      OneRecordsFailures(mid, last, last in launchFailures, error, now);
      hide Sound, PumpOne, EndingOne;
      forall id | id in db.runs ensures RowAdvances(db.runs[id], mid.runs[id]) {}
    }
  }

  lemma OneRecordsFailures(db: Db, id: RunId, launchFails: bool, error: string, now: Time)
    requires Sound(db)
    ensures var after := PumpOne(db, id, launchFails, error, now);
            && (forall e :: e in EndingOne(db, id, launchFails, now) <==>
                  e.1 == Failed && HasState(db, e.0, Queued) && HasState(after, e.0, Failed))
            && (forall x :: HasState(after, x, Failed) ==> HasState(db, x, Queued) || HasState(db, x, Failed))
            && (forall x :: HasState(db, x, Failed) ==> HasState(after, x, Failed))
            && after.runs.Keys == db.runs.Keys
  {
    ClaimOutcome(db, id, now);
  }

  /**
   A dependent and the child it waits for: once the child has ended, the next look at the queued
   dependent starts it if and only if the exit code was 0, spawning worked, no cancel was requested
   and nobody else holds its resources. After any other ending it is failed.
  */
  lemma DependentStartsExactly(db: Db, id: RunId, end: ChildEnd, dependent: RunId, error: string, now: Time, later: Time)
    requires LeasesExact(db) && ResourcesDistinct(db) && HasState(db, id, Running)
    requires HasState(db, dependent, Queued) && db.runs[dependent].dependsOn == Some(id)
    ensures var ended := Finish(db, id, LocalOutcome(db.runs[id].cancelRequested, end), end.receipt, now).0;
            var looked := PumpOne(ended, dependent, false, error, later);
            var good := !db.runs[id].cancelRequested && !end.spawnError && end.exitCode == Some(0);
            && (HasState(looked, dependent, Running) <==>
                  good && forall r :: r in db.runs[dependent].resources && r in db.leases ==> db.leases[r] == id)
            && (HasState(looked, dependent, Failed) <==> !good)
  {
    var ended := Finish(db, id, LocalOutcome(db.runs[id].cancelRequested, end), end.receipt, now).0;
    PumpOneDecides(ended, dependent, false, error, later);
  }
}
