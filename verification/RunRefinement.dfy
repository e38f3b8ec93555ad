/** What the controller does is a run of the system in which every statement may interleave. */
module RunRefinement {
  import opened Prelude
  import opened RunLedger
  import opened RunQueue
  import opened RunSystem
  import opened RunController
  import opened RunStore

  /** The transactions of one loop body of the pump, as the hub issues them. */
  function PumpEvents(db: Db, h: HubId, id: RunId, launchFails: bool, error: string, now: Time): seq<Event> {
    if id !in db.runs then []
    else if db.runs[id].dependsOn.Some? && Blocked(db, db.runs[id].dependsOn.value) then [FailQueuedRun(id, error, now)]
    else if db.runs[id].dependsOn.Some? && !HasState(db, db.runs[id].dependsOn.value, Succeeded) then []
    else if !TryClaim(db, id, now).1 then [SeeReady(h, id), ClaimRun(h, id, now)]
    else
      [SeeReady(h, id), ClaimRun(h, id, now),
       if launchFails then FinishRun(id, Failed, NO_RECEIPT.(error := Some(error)), now) else LaunchRun(h, id)]
  }

  lemma RunOne(s: System, a: Event)
    ensures Run(s, [a]) == Step(s, a)
  {
    assert [a][..0] == [] && Run(s, []) == s;
  }

  lemma RunTwo(s: System, a: Event, b: Event)
    ensures Run(s, [a, b]) == Step(Step(s, a), b)
  {
    hide Step;
    RunOne(s, a);
    assert [a, b][..1] == [a];
  }

  lemma RunThree(s: System, a: Event, b: Event, c: Event)
    ensures Run(s, [a, b, c]) == Step(Step(Step(s, a), b), c)
  {
    hide Step;
    RunTwo(s, a, b);
    assert [a, b, c][..2] == [a, b];
  }

  /** A loop body that claims: the prerequisite was seen met, the claim is recorded, the command launched once. */
  lemma ClaimRefines(s: System, h: HubId, id: RunId, now: Time)
    requires HubOf(s, h).active && PrerequisiteMet(s.db, id)
    ensures var t := Step(Step(s, SeeReady(h, id)), ClaimRun(h, id, now));
            && t.db == TryClaim(s.db, id, now).0 && t.terminals == s.terminals
            && t.claims == s.claims + (if TryClaim(s.db, id, now).1 then [id] else [])
            && t.launches == s.launches && HubOf(t, h).active
            && (TryClaim(s.db, id, now).1 ==> id in HubOf(t, h).unlaunched)
  {
    hide TryClaim;
    var u := Step(s, SeeReady(h, id));
    assert u.db == s.db && id in HubOf(u, h).ready;
  }

  /**
  One loop body of the pump is a run of the system: same ledger, the journaled endings of the
  controller, and a launch exactly when the controller takes ownership.
  */
  lemma PumpOneRefines(s: System, h: HubId, id: RunId, launchFails: bool, error: string, now: Time)
    requires HubOf(s, h).active
    ensures var t := Run(s, PumpEvents(s.db, h, id, launchFails, error, now));
            && t.db == PumpOne(s.db, id, launchFails, error, now)
            && t.terminals == s.terminals + EndingOne(s.db, id, launchFails, now)
            && t.launches == s.launches + (if LaunchedBy(s.db, id, now) && !launchFails then [id] else [])
            && HubOf(t, h).active
  {
    if id !in s.db.runs {
      assert Run(s, []) == s;
    } else if s.db.runs[id].dependsOn.Some? && Blocked(s.db, s.db.runs[id].dependsOn.value) {
      RunOne(s, FailQueuedRun(id, error, now));
    } else if s.db.runs[id].dependsOn.Some? && !HasState(s.db, s.db.runs[id].dependsOn.value, Succeeded) {
      assert Run(s, []) == s;
    } else {
      ClaimedRefines(s, h, id, launchFails, error, now);
    }
  }

  lemma ClaimedIsRunning(db: Db, id: RunId, now: Time)
    ensures TryClaim(db, id, now).1 ==> HasState(TryClaim(db, id, now).0, id, Running)
  {
  }

  lemma ClaimedRefines(s: System, h: HubId, id: RunId, launchFails: bool, error: string, now: Time)
    requires HubOf(s, h).active && PrerequisiteMet(s.db, id)
    ensures var t := Run(s, PumpEvents(s.db, h, id, launchFails, error, now));
            && t.db == PumpOne(s.db, id, launchFails, error, now)
            && t.terminals == s.terminals + EndingOne(s.db, id, launchFails, now)
            && t.launches == s.launches + (if LaunchedBy(s.db, id, now) && !launchFails then [id] else [])
            && HubOf(t, h).active
  {
    ClaimRefines(s, h, id, now);
    ClaimedIsRunning(s.db, id, now);
    hide TryClaim;
    var t := Step(Step(s, SeeReady(h, id)), ClaimRun(h, id, now));
    var receipt := NO_RECEIPT.(error := Some(error));
    if !TryClaim(s.db, id, now).1 {
      RunTwo(s, SeeReady(h, id), ClaimRun(h, id, now));
    } else if launchFails {
      RunThree(s, SeeReady(h, id), ClaimRun(h, id, now), FinishRun(id, Failed, receipt, now));
    } else {
      RunThree(s, SeeReady(h, id), ClaimRun(h, id, now), LaunchRun(h, id));
    }
  }

  // ---- a whole pass ----------------------------------------------------------------------------------

  lemma {:induction false} RunConcat(s: System, a: seq<Event>, b: seq<Event>)
    ensures Run(s, a + b) == Run(Run(s, a), b)
  {
    hide Step;
    if b == [] {
      assert a + b == a;
    } else {
      var n := |b| - 1;
      RunConcat(s, a, b[..n]);
      assert (a + b)[..|a| + n] == a + b[..n];
    }
  }

  function PassEvents(db: Db, h: HubId, ids: seq<RunId>, launchFailures: set<RunId>, error: string, now: Time): seq<Event> {
    if ids == [] then []
    else
      var before, last := ids[..|ids| - 1], ids[|ids| - 1];
      PassEvents(db, h, before, launchFailures, error, now)
      + PumpEvents(PumpPass(db, before, launchFailures, error, now), h, last, last in launchFailures, error, now)
  }

  /** A pump pass of an active hub is a run of the system, with the journaled endings of the controller. */
  lemma {:induction false} PumpPassRefines(s: System, h: HubId, ids: seq<RunId>, launchFailures: set<RunId>, error: string, now: Time)
    requires HubOf(s, h).active
    ensures var t := Run(s, PassEvents(s.db, h, ids, launchFailures, error, now));
            && t.db == PumpPass(s.db, ids, launchFailures, error, now)
            && t.terminals == s.terminals + Endings(s.db, ids, launchFailures, error, now)
            && HubOf(t, h).active
  {
    hide PumpEvents, Step, PumpOne, EndingOne;
    if ids == [] {
      assert Run(s, []) == s;
    } else {
      var before, last := ids[..|ids| - 1], ids[|ids| - 1];
      var es := PassEvents(s.db, h, before, launchFailures, error, now);
      PumpPassRefines(s, h, before, launchFailures, error, now);
      var mid := Run(s, es);
      PumpOneRefines(mid, h, last, last in launchFailures, error, now);
      RunConcat(s, es, PumpEvents(mid.db, h, last, last in launchFailures, error, now));
    }
  }

  // ---- completions and cancels -------------------------------------------------------------------------

  /** A completion is one finish transaction. */
  lemma SettleRefines(s: System, id: RunId, outcome: RunState, receipt: Receipt, now: Time)
    requires outcome.Terminal()
    ensures var t := Run(s, [FinishRun(id, outcome, receipt, now)]);
            && t.db == RunLedger.Finish(s.db, id, outcome, receipt, now).0
            && t.terminals == s.terminals + (if HasState(s.db, id, Running) then [(id, outcome)] else [])
            && t.hubs == s.hubs && t.launches == s.launches
  {
    RunOne(s, FinishRun(id, outcome, receipt, now));
  }

  /** Close or error of a local child, as the controller records it. */
  lemma SettleLocalRefines(s: System, id: RunId, end: ChildEnd, now: Time)
    ensures var outcome := LocalOutcome(id in s.db.runs && s.db.runs[id].cancelRequested, end);
            var t := Run(s, [FinishRun(id, outcome, end.receipt, now)]);
            && t.db == RunLedger.Finish(s.db, id, outcome, end.receipt, now).0
            && t.terminals == s.terminals + (if HasState(s.db, id, Running) then [(id, outcome)] else [])
  {
    SettleRefines(s, id, LocalOutcome(id in s.db.runs && s.db.runs[id].cancelRequested, end), end.receipt, now);
  }

  /** The answer of a remote executor, as the controller records it. */
  lemma SettleRemoteRefines(s: System, id: RunId, end: RemoteEnd, now: Time)
    ensures var t := Run(s, [FinishRun(id, RemoteOutcome(end), end.receipt, now)]);
            && t.db == RunLedger.Finish(s.db, id, RemoteOutcome(end), end.receipt, now).0
            && t.terminals == s.terminals + (if HasState(s.db, id, Running) then [(id, RemoteOutcome(end))] else [])
  {
    SettleRefines(s, id, RemoteOutcome(end), end.receipt, now);
  }

  /** The statements of a cancel call, with what other processes do between its read and its UPDATE. */
  function CancelEvents(h: HubId, id: RunId, others: seq<Event>, error: string, now: Time): seq<Event> {
    [ReadForCancel(h, id), ReadForUpdate(h, id)] + others + [CancelRun(h, id, error, now), JournalCancel(h, id)]
  }

  /** A cancel call of the controller is a run of the system, whatever other processes do in its middle. */
  lemma CancelRefines(s: System, h: HubId, id: RunId, others: seq<Event>, error: string, now: Time)
    requires id in s.db.runs && !s.db.runs[id].state.Terminal()
    requires forall i :: 0 <= i < |others| ==> LeavesCancel(others[i], h, id)
    ensures var u := Run(Run(s, [ReadForCancel(h, id), ReadForUpdate(h, id)]), others);
            var t := Run(s, CancelEvents(h, id, others, error, now));
            && t.db == RequestedCancel(s.db, id, error, now, u.db)
            && t.terminals == u.terminals + CancelEnding(s.db, t.db, id)
  {
    var front, back := [ReadForCancel(h, id), ReadForUpdate(h, id)], [CancelRun(h, id, error, now), JournalCancel(h, id)];
    RunTwo(s, front[0], front[1]);
    var r := Run(s, front);
    CancelReads(s, h, id);
    CancelKeptOver(r, others, h, id);
    var u := Run(r, others);
    hide Step, LeavesCancel, CancelUpdate;
    RunConcat(s, front, others);
    RunConcat(s, front + others, back);
    RunTwo(u, back[0], back[1]);
    CancelWrites(u, h, id, HasState(s.db, id, Queued), s.db.runs[id].state, error, now);
  }

  lemma CancelReads(s: System, h: HubId, id: RunId)
    requires id in s.db.runs
    ensures var r := Step(Step(s, ReadForCancel(h, id)), ReadForUpdate(h, id));
            && r.db == s.db && id in HubOf(r, h).cancels
            && HubOf(r, h).cancels[id] == Cancelling(HasState(s.db, id, Queued), Some(s.db.runs[id].state), false)
  {
  }

  lemma CancelWrites(u: System, h: HubId, id: RunId, sawQueued: bool, read: RunState, error: string, now: Time)
    requires id in HubOf(u, h).cancels && HubOf(u, h).cancels[id] == Cancelling(sawQueued, Some(read), false)
    ensures var t := Step(Step(u, CancelRun(h, id, error, now)), JournalCancel(h, id));
            && t.db == CancelUpdate(u.db, id, read, error, now)
            && t.terminals == u.terminals + (if sawQueued && HasState(t.db, id, Cancelled) then [(id, Cancelled)] else [])
  {
    hide CancelUpdate;
  }
}
