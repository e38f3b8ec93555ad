/**
 Any number of hub processes sharing one run ledger. Each event is one atomic step of one
 hub: a SQL transaction, a read whose result the hub acts on later, a process launch, or a
 crash that forgets everything the hub had in memory. Runs are finite event sequences in
 any interleaving.
*/
module RunSystem {
  import opened Prelude
  import opened RunLedger

  type HubId = nat

  /**
   A cancel call in progress: whether its first read saw the run queued, the state its second read
   found, and whether its UPDATE has been issued.
  */
  datatype Cancelling = Cancelling(sawQueued: bool, read: Option<RunState>, updated: bool)

  /** What a hub process remembers between its own steps. */
  datatype Hub = Hub(
    active: bool,
    checked: set<(RunId, string)>,  // prerequisites `start` has looked up, with their project
    ready: set<RunId>,              // queued runs whose prerequisite `pump` found satisfied
    unlaunched: set<RunId>,         // runs this hub claimed and has not spawned yet
    cancels: map<RunId, Cancelling>)

  const NEW_HUB := Hub(false, {}, {}, {}, map[])

  datatype System = System(
    db: Db, hubs: map<HubId, Hub>,
    claims: seq<RunId>,                 // successful claims, in order, over all hubs
    launches: seq<RunId>,               // commands spawned, in order, over all hubs
    terminals: seq<(RunId, RunState)>)  // terminal events journaled, in order

  const BOOT := System(EMPTY_DB, map[], [], [], [])

  datatype Event =
    | Activate(h: HubId)
    | Crash(h: HubId)
    | CheckPrerequisite(h: HubId, prerequisite: RunId, project: string)
    | CreateRun(h: HubId, id: RunId, project: string, dependsOn: Option<RunId>, raw: seq<string>, now: Time)
    | SeeReady(h: HubId, id: RunId)
    | ClaimRun(h: HubId, id: RunId, now: Time)
    | LaunchRun(h: HubId, id: RunId)
    | FinishRun(id: RunId, state: RunState, receipt: Receipt, now: Time)
    | FailQueuedRun(id: RunId, error: string, now: Time)
    | ReadForCancel(h: HubId, id: RunId)
    | ReadForUpdate(h: HubId, id: RunId)
    | CancelRun(h: HubId, id: RunId, error: string, now: Time)
    | JournalCancel(h: HubId, id: RunId)
    | ReconcileRuns(candidates: seq<RunId>, error: string, now: Time)
    | Beat(id: RunId, now: Time)
    | Continue(id: RunId, now: Time)

  function HubOf(s: System, h: HubId): Hub {
    if h in s.hubs then s.hubs[h] else NEW_HUB
  }

  function WithHub(s: System, h: HubId, hub: Hub): System {
    s.(hubs := s.hubs[h := hub])
  }

  function WithCancel(s: System, h: HubId, id: RunId, c: Cancelling): System {
    WithHub(s, h, HubOf(s, h).(cancels := HubOf(s, h).cancels[id := c]))
  }

  /** The prerequisite test of the queue pump. */
  predicate PrerequisiteMet(db: Db, id: RunId) {
    id in db.runs && (db.runs[id].dependsOn.None? || HasState(db, db.runs[id].dependsOn.value, Succeeded))
  }

  /** Runs of `candidates` that a reconciliation moves to outcome_unknown, in order. */
  function Interrupted(db: Db, candidates: seq<RunId>, error: string, now: Time): seq<(RunId, RunState)> {
    if candidates == [] then []
    else
      var before := candidates[..|candidates| - 1];
      var last := candidates[|candidates| - 1];
      Interrupted(db, before, error, now) +
      (if Interrupt(Reconcile(db, before, error, now), last, error, now).1 then [(last, OutcomeUnknown)] else [])
  }

  /** One step. An event whose guard fails in the code leaves the system unchanged. */
  function Step(s: System, e: Event): System {
    match e
    case Activate(h) => WithHub(s, h, HubOf(s, h).(active := true))
    case Crash(h) => WithHub(s, h, NEW_HUB)
    case CheckPrerequisite(h, prerequisite, project) =>
      if HubOf(s, h).active && prerequisite in s.db.runs && s.db.runs[prerequisite].project == project then
        WithHub(s, h, HubOf(s, h).(checked := HubOf(s, h).checked + {(prerequisite, project)}))
      else s
    case CreateRun(h, id, project, dependsOn, raw, now) =>
      if dependsOn.Some? && (dependsOn.value, project) !in HubOf(s, h).checked then s
      else s.(db := Create(s.db, id, project, dependsOn, NormalizeResources(raw), now))
    case SeeReady(h, id) =>
      if HubOf(s, h).active && PrerequisiteMet(s.db, id) then
        WithHub(s, h, HubOf(s, h).(ready := HubOf(s, h).ready + {id}))
      else s
    case ClaimRun(h, id, now) =>
      if id !in HubOf(s, h).ready then s
      else
        var (db', ok) := TryClaim(s.db, id, now);
        if ok then
          WithHub(s, h, HubOf(s, h).(unlaunched := HubOf(s, h).unlaunched + {id}))
            .(db := db', claims := s.claims + [id])
        else s.(db := db')
    case LaunchRun(h, id) =>
      if id !in HubOf(s, h).unlaunched then s
      else
        WithHub(s, h, HubOf(s, h).(unlaunched := HubOf(s, h).unlaunched - {id}))
          .(launches := s.launches + [id])
    case FinishRun(id, state, receipt, now) =>
      if !state.Terminal() then s
      else
        var (db', changed) := Finish(s.db, id, state, receipt, now);
        s.(db := db', terminals := s.terminals + if changed then [(id, state)] else [])
    case FailQueuedRun(id, error, now) =>
      var (db', changed) := FailQueued(s.db, id, error, now);
      s.(db := db', terminals := s.terminals + if changed then [(id, Failed)] else [])
    case ReadForCancel(h, id) =>
      if id !in s.db.runs then s
      else WithCancel(s, h, id, Cancelling(HasState(s.db, id, Queued), None, false))
    case ReadForUpdate(h, id) =>
      if id !in HubOf(s, h).cancels || id !in s.db.runs then s
      else WithCancel(s, h, id, HubOf(s, h).cancels[id].(read := Some(s.db.runs[id].state)))
    case CancelRun(h, id, error, now) =>
      if id !in HubOf(s, h).cancels || HubOf(s, h).cancels[id].read.None? || HubOf(s, h).cancels[id].updated then s
      else
        WithCancel(s, h, id, HubOf(s, h).cancels[id].(updated := true))
          .(db := CancelUpdate(s.db, id, HubOf(s, h).cancels[id].read.value, error, now))
    case JournalCancel(h, id) =>
      if id !in HubOf(s, h).cancels || !HubOf(s, h).cancels[id].updated then s
      else
        WithHub(s, h, HubOf(s, h).(cancels := HubOf(s, h).cancels - {id}))
          .(terminals := s.terminals +
              if HubOf(s, h).cancels[id].sawQueued && HasState(s.db, id, Cancelled) then [(id, Cancelled)] else [])
    case ReconcileRuns(candidates, error, now) =>
      s.(db := Reconcile(s.db, candidates, error, now),
         terminals := s.terminals + Interrupted(s.db, candidates, error, now))
    case Beat(id, now) => s.(db := Heartbeat(s.db, id, now))
    case Continue(id, now) => s.(db := MarkContinuation(s.db, id, now))
  }

  function Run(s: System, es: seq<Event>): System {
    if es == [] then s else Step(Run(s, es[..|es| - 1]), es[|es| - 1])
  }

  // ---- the invariant ------------------------------------------------------------------

  /** What a hub remembers stays true whatever the other hubs do. */
  ghost predicate HubHonest(s: System, hub: Hub) {
    && (forall c :: c in hub.checked ==> c.0 in s.db.runs && s.db.runs[c.0].project == c.1)
    && (forall id :: id in hub.ready ==> PrerequisiteSucceeded(s.db, id))
    && (forall id :: id in hub.unlaunched ==> id in s.claims && id !in s.launches)
  }

  ghost predicate HubsHonest(s: System) {
    && (forall h :: h in s.hubs ==> HubHonest(s, s.hubs[h]))
    && (forall g, h :: g in s.hubs && h in s.hubs && g != h ==> s.hubs[g].unlaunched !! s.hubs[h].unlaunched)
  }

  /** Each run is claimed at most once, and exactly the started runs were claimed. */
  ghost predicate ClaimsOnce(s: System) {
    && Distinct(s.claims) && Distinct(s.launches)
    && (forall id :: id in s.launches ==> id in s.claims)
    && (forall id :: id in s.claims <==> id in s.db.runs && s.db.runs[id].startedAt.Some?)
  }

  /** A journaled terminal event names the state the row ended in. */
  ghost predicate TerminalsAgree(s: System) {
    forall t :: t in s.terminals ==> t.1.Terminal() && HasState(s.db, t.0, t.1)
  }

  ghost predicate Inv(s: System) {
    Sound(s.db) && HubsHonest(s) && ClaimsOnce(s) && TerminalsAgree(s)
  }

  /** Hub memories survive any ledger step that only advances rows. */
  lemma HubsStayHonest(s: System, db': Db)
    requires HubsHonest(s) && Advances(s.db, db')
    ensures HubsHonest(s.(db := db'))
  {
    var s' := s.(db := db');
    forall h | h in s'.hubs ensures HubHonest(s', s'.hubs[h]) {
      assert HubHonest(s, s.hubs[h]);
      forall id | id in s'.hubs[h].ready ensures PrerequisiteSucceeded(db', id) {
        assert PrerequisiteSucceeded(s.db, id);
        assert RowAdvances(s.db.runs[id], db'.runs[id]);
      }
    }
  }

  lemma TerminalsStay(s: System, db': Db)
    requires TerminalsAgree(s) && Advances(s.db, db')
    ensures TerminalsAgree(s.(db := db'))
  {
    forall t | t in s.terminals ensures t.1.Terminal() && HasState(db', t.0, t.1) {
      assert RowAdvances(s.db.runs[t.0], db'.runs[t.0]);
    }
  }

  /** A ledger step that starts nothing. */
  lemma LedgerStep(s: System, db': Db)
    requires Inv(s) && Sound(db') && Advances(s.db, db')
    requires forall id :: id in db'.runs && db'.runs[id].startedAt.Some? ==>
                            id in s.db.runs && s.db.runs[id].startedAt.Some?
    ensures Inv(s.(db := db'))
  {
    HubsStayHonest(s, db');
    TerminalsStay(s, db');
    var s' := s.(db := db');
    forall id ensures id in s'.claims <==> id in db'.runs && db'.runs[id].startedAt.Some? {
      if id in s.claims { assert RowAdvances(s.db.runs[id], db'.runs[id]); }
    }
  }

  lemma {:induction false} ReconcileStartsNothing(db: Db, candidates: seq<RunId>, error: string, now: Time)
    ensures var db' := Reconcile(db, candidates, error, now);
            db'.runs.Keys == db.runs.Keys &&
            forall id :: id in db.runs ==> db'.runs[id].startedAt == db.runs[id].startedAt
  {
    if candidates != [] {
      ReconcileStartsNothing(db, candidates[..|candidates| - 1], error, now);
    }
  }

  lemma {:induction false} InterruptedAgree(db: Db, candidates: seq<RunId>, error: string, now: Time)
    requires Sound(db)
    ensures forall t :: t in Interrupted(db, candidates, error, now) ==>
              t.1 == OutcomeUnknown && HasState(Reconcile(db, candidates, error, now), t.0, OutcomeUnknown)
  {
    if candidates != [] {
      var before := candidates[..|candidates| - 1];
      InterruptedAgree(db, before, error, now);
      ReconcileSound(db, before, error, now);
      var mid := Reconcile(db, before, error, now);
      var last := candidates[|candidates| - 1];
      if last in mid.runs {
        FinishSound(mid, last, OutcomeUnknown, mid.runs[last].receipt.(error := Some(error)), now);
      }
    }
  }

  lemma HubStep(s: System, h: HubId, hub: Hub)
    requires Inv(s) && HubHonest(s, hub)
    requires hub.unlaunched <= HubOf(s, h).unlaunched
    ensures Inv(WithHub(s, h, hub))
  {
    var s' := WithHub(s, h, hub);
    forall g | g in s'.hubs ensures HubHonest(s', s'.hubs[g]) {
      if g != h { assert HubHonest(s, s.hubs[g]); }
    }
  }

  lemma ClaimStep(s: System, h: HubId, id: RunId, now: Time)
    requires Inv(s)
    ensures Inv(Step(s, ClaimRun(h, id, now))) && Advances(s.db, Step(s, ClaimRun(h, id, now)).db)
  {
    if id in HubOf(s, h).ready {
      assert HubHonest(s, s.hubs[h]);
      ClaimSound(s.db, id, now);
      ClaimOutcome(s.db, id, now);
      ClaimStarts(s.db, id, now);
      var (db', ok) := TryClaim(s.db, id, now);
      hide Sound, Advances, TryClaim, HubsHonest;
      if ok {
        HubsStayHonest(s, db');
        TerminalsStay(s, db');
        ClaimedHubs(s.(db := db'), h, id);
      }
    }
  }

  lemma ClaimStarts(db: Db, id: RunId, now: Time)
    ensures TryClaim(db, id, now).1 ==>
              var db' := TryClaim(db, id, now).0;
              && id in db.runs && db.runs[id].state.Queued? && db'.runs.Keys == db.runs.Keys
              && (forall x :: x in db.runs ==> (db'.runs[x].startedAt.Some? <==> x == id || db.runs[x].startedAt.Some?))
  {
  }

  /** Hub h remembers a run it has just claimed, which nobody claimed before. */
  lemma ClaimedHubs(s: System, h: HubId, id: RunId)
    requires HubsHonest(s) && id !in s.claims && (forall x :: x in s.launches ==> x in s.claims)
    ensures HubsHonest(WithHub(s, h, HubOf(s, h).(unlaunched := HubOf(s, h).unlaunched + {id})).(claims := s.claims + [id]))
  {
    var t := WithHub(s, h, HubOf(s, h).(unlaunched := HubOf(s, h).unlaunched + {id})).(claims := s.claims + [id]);
    hide PrerequisiteSucceeded;
    forall g | g in t.hubs ensures HubHonest(t, t.hubs[g]) {
      if g in s.hubs { assert HubHonest(s, s.hubs[g]); }
    }
    forall f, g | f in t.hubs && g in t.hubs && f != g ensures t.hubs[f].unlaunched !! t.hubs[g].unlaunched {
      if f in s.hubs { assert HubHonest(s, s.hubs[f]); }
      if g in s.hubs { assert HubHonest(s, s.hubs[g]); }
    }
  }

  lemma LaunchStep(s: System, h: HubId, id: RunId)
    requires Inv(s)
    ensures Inv(Step(s, LaunchRun(h, id)))
  {
    if id in HubOf(s, h).unlaunched {
      assert HubHonest(s, s.hubs[h]);
      var s' := Step(s, LaunchRun(h, id));
      forall g | g in s'.hubs ensures HubHonest(s', s'.hubs[g]) {
        assert HubHonest(s, s.hubs[g]);
        if g != h { assert s.hubs[g].unlaunched !! s.hubs[h].unlaunched; }
      }
    }
  }

  lemma CreateStep(s: System, h: HubId, id: RunId, project: string, dependsOn: Option<RunId>, raw: seq<string>, now: Time)
    requires Inv(s)
    ensures Inv(Step(s, CreateRun(h, id, project, dependsOn, raw, now)))
    ensures Advances(s.db, Step(s, CreateRun(h, id, project, dependsOn, raw, now)).db)
  {
    if dependsOn.None? || (dependsOn.value, project) in HubOf(s, h).checked {
      if dependsOn.Some? { assert HubHonest(s, s.hubs[h]); }
      NormalizedDistinct(raw);
      CreateSound(s.db, id, project, dependsOn, NormalizeResources(raw), now);
      LedgerStep(s, Create(s.db, id, project, dependsOn, NormalizeResources(raw), now));
    }
  }

  predicate TouchesLedger(e: Event) {
    e.FinishRun? || e.FailQueuedRun? || e.CancelRun? || e.JournalCancel? || e.ReconcileRuns? || e.Beat? || e.Continue?
  }

  lemma CheckStep(s: System, e: Event)
    requires Inv(s) && (e.CheckPrerequisite? || e.SeeReady? || e.ReadForCancel? || e.ReadForUpdate?)
    ensures Inv(Step(s, e))
  {
    if e.h in s.hubs { assert HubHonest(s, s.hubs[e.h]); }
    if Step(s, e) != s { HubStep(s, e.h, Step(s, e).hubs[e.h]); }
  }

  lemma HubMemoryStep(s: System, e: Event)
    requires Inv(s) && !TouchesLedger(e)
    ensures Inv(Step(s, e)) && Advances(s.db, Step(s, e).db)
  {
    match e
    case CreateRun(h, id, project, dependsOn, raw, now) => CreateStep(s, h, id, project, dependsOn, raw, now);
    case ClaimRun(h, id, now) => ClaimStep(s, h, id, now);
    case LaunchRun(h, id) => LaunchStep(s, h, id);
    case Activate(h) =>
      if h in s.hubs { assert HubHonest(s, s.hubs[h]); }
      HubStep(s, h, HubOf(s, h).(active := true));
    case Crash(h) => HubStep(s, h, NEW_HUB);
    case _ => CheckStep(s, e);
  }

  lemma FinishStep(s: System, id: RunId, state: RunState, receipt: Receipt, now: Time)
    requires Inv(s) && state.Terminal()
    ensures Inv(Step(s, FinishRun(id, state, receipt, now)))
    ensures Advances(s.db, Step(s, FinishRun(id, state, receipt, now)).db)
  {
    hide Sound, Advances;
    FinishSound(s.db, id, state, receipt, now);
    LedgerStep(s, Finish(s.db, id, state, receipt, now).0);
  }

  lemma FailQueuedStep(s: System, id: RunId, error: string, now: Time)
    requires Inv(s)
    ensures Inv(Step(s, FailQueuedRun(id, error, now)))
    ensures Advances(s.db, Step(s, FailQueuedRun(id, error, now)).db)
  {
    FailQueuedSound(s.db, id, error, now);
    LedgerStep(s, FailQueued(s.db, id, error, now).0);
  }

  lemma JournalTerminal(s: System, id: RunId, state: RunState)
    requires Inv(s) && HasState(s.db, id, state) && state.Terminal()
    ensures Inv(s.(terminals := s.terminals + [(id, state)]))
  {
    var s' := s.(terminals := s.terminals + [(id, state)]);
    forall h | h in s'.hubs ensures HubHonest(s', s'.hubs[h]) {
      assert HubHonest(s, s.hubs[h]);
    }
  }

  lemma CancelStep(s: System, h: HubId, id: RunId, error: string, now: Time)
    requires Inv(s)
    ensures Inv(Step(s, CancelRun(h, id, error, now)))
    ensures Advances(s.db, Step(s, CancelRun(h, id, error, now)).db)
  {
    if id in HubOf(s, h).cancels && HubOf(s, h).cancels[id].read.Some? && !HubOf(s, h).cancels[id].updated {
      var c := HubOf(s, h).cancels[id];
      hide Sound, Advances;
      CancelSound(s.db, id, c.read.value, error, now);
      LedgerStep(s, CancelUpdate(s.db, id, c.read.value, error, now));
      var t := s.(db := CancelUpdate(s.db, id, c.read.value, error, now));
      if h in s.hubs { assert HubHonest(t, t.hubs[h]); }
      HubStep(t, h, HubOf(t, h).(cancels := HubOf(t, h).cancels[id := c.(updated := true)]));
      assert Step(s, CancelRun(h, id, error, now)) == WithCancel(t, h, id, c.(updated := true));
    }
  }

  lemma JournalCancelStep(s: System, h: HubId, id: RunId)
    requires Inv(s)
    ensures Inv(Step(s, JournalCancel(h, id))) && Advances(s.db, Step(s, JournalCancel(h, id)).db)
  {
    if id in HubOf(s, h).cancels && HubOf(s, h).cancels[id].updated {
      if h in s.hubs { assert HubHonest(s, s.hubs[h]); }
      var hub := HubOf(s, h).(cancels := HubOf(s, h).cancels - {id});
      HubStep(s, h, hub);
      var u := WithHub(s, h, hub);
      if HubOf(s, h).cancels[id].sawQueued && HasState(s.db, id, Cancelled) {
        JournalTerminal(u, id, Cancelled);
        assert Step(s, JournalCancel(h, id)) == u.(terminals := u.terminals + [(id, Cancelled)]);
      } else {
        assert Step(s, JournalCancel(h, id)) == u;
      }
    }
  }

  lemma ReconcileStep(s: System, candidates: seq<RunId>, error: string, now: Time)
    requires Inv(s)
    ensures Inv(Step(s, ReconcileRuns(candidates, error, now)))
    ensures Advances(s.db, Step(s, ReconcileRuns(candidates, error, now)).db)
  {
    ReconcileSound(s.db, candidates, error, now);
    ReconcileStartsNothing(s.db, candidates, error, now);
    LedgerStep(s, Reconcile(s.db, candidates, error, now));
    InterruptedAgree(s.db, candidates, error, now);
  }

  /** Every step of every hub keeps the invariant and only advances rows. */
  lemma StepKeepsInv(s: System, e: Event)
    requires Inv(s)
    ensures Inv(Step(s, e)) && Advances(s.db, Step(s, e).db)
  {
    match e
    case FinishRun(id, state, receipt, now) =>
      if state.Terminal() { FinishStep(s, id, state, receipt, now); }
    case FailQueuedRun(id, error, now) => FailQueuedStep(s, id, error, now);
    case CancelRun(h, id, error, now) => CancelStep(s, h, id, error, now);
    case JournalCancel(h, id) => JournalCancelStep(s, h, id);
    case ReconcileRuns(candidates, error, now) => ReconcileStep(s, candidates, error, now);
    case Beat(id, now) =>
      HeartbeatSound(s.db, id, now);
      LedgerStep(s, Heartbeat(s.db, id, now));
    case Continue(id, now) =>
      MarkContinuationSound(s.db, id, now);
      LedgerStep(s, MarkContinuation(s.db, id, now));
    case _ => HubMemoryStep(s, e);
  }

  lemma {:induction false} RunKeepsInv(s: System, es: seq<Event>)
    requires Inv(s)
    ensures Inv(Run(s, es)) && Advances(s.db, Run(s, es).db)
  {
    if es != [] {
      RunKeepsInv(s, es[..|es| - 1]);
      var mid := Run(s, es[..|es| - 1]);
      StepKeepsInv(mid, es[|es| - 1]);
      AdvancesTransitive(s.db, mid.db, Run(s, es).db);
    }
  }

  // ---- what holds in every run from an empty ledger -------------------------------------

  lemma BootInv()
    ensures Inv(BOOT)
  {
  }

  /**
   In every reachable ledger a run holds leases on exactly its resource set while it runs and
   on none otherwise; so no two running runs share a resource.
  */
  lemma LeasesAlwaysExact(es: seq<Event>)
    ensures var db := Run(BOOT, es).db;
      && (forall r, id :: (r in db.leases && db.leases[r] == id) <==>
                          (HasState(db, id, Running) && r in db.runs[id].resources))
      && (forall a, b, r ::
            (HasState(db, a, Running) && HasState(db, b, Running)
             && r in db.runs[a].resources && r in db.runs[b].resources) ==> a == b)
  {
    RunKeepsInv(BOOT, es);
    var db := Run(BOOT, es).db;
    forall a, b, r | HasState(db, a, Running) && HasState(db, b, Running)
      && r in db.runs[a].resources && r in db.runs[b].resources ensures a == b
    {
      RunningRunsDisjoint(db, a, b, r);
    }
  }

  /** A prerequisite was always created before its dependent, in the same project. */
  lemma PrerequisitesEarlier(es: seq<Event>, id: RunId)
    requires id in Run(BOOT, es).db.runs && Run(BOOT, es).db.runs[id].dependsOn.Some?
    ensures var db := Run(BOOT, es).db; var prerequisite := db.runs[id].dependsOn.value;
      && prerequisite in db.runs
      && db.runs[prerequisite].rowid < db.runs[id].rowid
      && db.runs[prerequisite].project == db.runs[id].project
  {
    RunKeepsInv(BOOT, es);
  }

  /** A run that was ever started has a succeeded prerequisite, at that time and ever after. */
  lemma StartedMeansPrerequisiteSucceeded(es: seq<Event>, later: seq<Event>, id: RunId)
    requires id in Run(BOOT, es).db.runs && Run(BOOT, es).db.runs[id].startedAt.Some?
    ensures PrerequisiteSucceeded(Run(Run(BOOT, es), later).db, id)
  {
    RunKeepsInv(BOOT, es);
    RunKeepsInv(Run(BOOT, es), later);
    var a, b := Run(BOOT, es).db, Run(Run(BOOT, es), later).db;
    assert PrerequisiteSucceeded(a, id);
    assert RowAdvances(a.runs[id], b.runs[id]);
    if a.runs[id].dependsOn.Some? {
      assert RowAdvances(a.runs[a.runs[id].dependsOn.value], b.runs[a.runs[id].dependsOn.value]);
    }
  }

  /** Over all hubs, crashes and restarts a run is claimed once and its command spawned once. */
  lemma LaunchedAtMostOnce(es: seq<Event>)
    ensures Distinct(Run(BOOT, es).claims) && Distinct(Run(BOOT, es).launches)
    ensures forall id :: id in Run(BOOT, es).launches ==> id in Run(BOOT, es).claims
  {
    RunKeepsInv(BOOT, es);
  }

  /** The first terminal outcome is never changed by a late step of any hub. */
  lemma TerminalIsFinal(es: seq<Event>, later: seq<Event>, id: RunId)
    requires id in Run(BOOT, es).db.runs && Run(BOOT, es).db.runs[id].state.Terminal()
    ensures id in Run(Run(BOOT, es), later).db.runs
    ensures SameOutcome(Run(BOOT, es).db.runs[id], Run(Run(BOOT, es), later).db.runs[id])
  {
    RunKeepsInv(BOOT, es);
    RunKeepsInv(Run(BOOT, es), later);
    assert RowAdvances(Run(BOOT, es).db.runs[id], Run(Run(BOOT, es), later).db.runs[id]);
  }

  /** Whatever the interleaving, all terminal events journaled for one run name one state. */
  lemma JournalNeverContradicts(es: seq<Event>, i: nat, j: nat)
    requires i < |Run(BOOT, es).terminals| && j < |Run(BOOT, es).terminals|
    requires Run(BOOT, es).terminals[i].0 == Run(BOOT, es).terminals[j].0
    ensures Run(BOOT, es).terminals[i] == Run(BOOT, es).terminals[j]
  {
    RunKeepsInv(BOOT, es);
    assert Run(BOOT, es).terminals[i] in Run(BOOT, es).terminals;
    assert Run(BOOT, es).terminals[j] in Run(BOOT, es).terminals;
  }

  // ---- journaling the end of a run ---------------------------------------------------------

  lemma {:induction false} InterruptedFresh(db: Db, candidates: seq<RunId>, error: string, now: Time)
    requires Sound(db)
    ensures Distinct(Interrupted(db, candidates, error, now))
    ensures forall t :: t in Interrupted(db, candidates, error, now) ==> HasState(db, t.0, Running)
  {
    if candidates != [] {
      var before := candidates[..|candidates| - 1];
      var last := candidates[|candidates| - 1];
      InterruptedFresh(db, before, error, now);
      InterruptedAgree(db, before, error, now);
      ReconcileSound(db, before, error, now);
      var mid := Reconcile(db, before, error, now);
      if HasState(mid, last, Running) {
        ReconcileKeepsRows(db, before, error, now);
        assert RowAdvances(db.runs[last], mid.runs[last]);
        ReconcileNeverStarts(db, before, error, now, last);
      }
    }
  }

  lemma {:induction false} ReconcileKeepsRows(db: Db, candidates: seq<RunId>, error: string, now: Time)
    ensures Reconcile(db, candidates, error, now).runs.Keys == db.runs.Keys
  {
    if candidates != [] { ReconcileKeepsRows(db, candidates[..|candidates| - 1], error, now); }
  }

  lemma {:induction false} ReconcileNeverStarts(db: Db, candidates: seq<RunId>, error: string, now: Time, id: RunId)
    requires HasState(Reconcile(db, candidates, error, now), id, Running)
    ensures HasState(db, id, Running)
  {
    if candidates != [] { ReconcileNeverStarts(db, candidates[..|candidates| - 1], error, now, id); }
  }

  lemma DistinctConcat<T>(a: seq<T>, b: seq<T>)
    requires Distinct(a) && Distinct(b) && forall x :: x in b ==> x !in a
    ensures Distinct(a + b)
  {
    forall i, j | 0 <= i < j < |a + b| ensures (a + b)[i] != (a + b)[j] {
      if j >= |a| { assert (a + b)[j] == b[j - |a|] && b[j - |a|] in b; }
    }
  }

  /** A cancel call that saw the run queued and is about to journal an ending that is journaled already. */
  predicate StaleCancel(s: System, e: Event) {
    && e.JournalCancel? && e.id in HubOf(s, e.h).cancels
    && HubOf(s, e.h).cancels[e.id].updated && HubOf(s, e.h).cancels[e.id].sawQueued
    && (e.id, Cancelled) in s.terminals
  }

  /** A step repeats a terminal event exactly if it is a stale cancel; all other steps record only rows they changed. */
  lemma StepJournalsOnce(s: System, e: Event)
    requires Inv(s) && Distinct(s.terminals)
    ensures Distinct(Step(s, e).terminals) <==> !StaleCancel(s, e)
  {
    match e
    case ReconcileRuns(candidates, error, now) =>
      InterruptedFresh(s.db, candidates, error, now);
      forall t | t in Interrupted(s.db, candidates, error, now) ensures t !in s.terminals {
        assert HasState(s.db, t.0, Running);
      }
      DistinctConcat(s.terminals, Interrupted(s.db, candidates, error, now));
    case JournalCancel(h, id) =>
      var t := Step(s, e).terminals;
      if StaleCancel(s, e) {
        var i :| 0 <= i < |s.terminals| && s.terminals[i] == (id, Cancelled);
        assert HasState(s.db, id, Cancelled);
        assert t[i] == t[|s.terminals|];
      }
    case FinishRun(id, state, receipt, now) =>
      if (id, state) in s.terminals { assert HasState(s.db, id, state); }
    case FailQueuedRun(id, error, now) =>
      if (id, Failed) in s.terminals { assert HasState(s.db, id, Failed); }
    case _ =>
  }

  /** Some step of the run is a stale cancel. */
  ghost predicate TakesStaleCancel(es: seq<Event>) {
    exists k :: 0 <= k < |es| && StaleCancel(Run(BOOT, es[..k]), es[k])
  }

  lemma StaleSnoc(es: seq<Event>)
    requires es != []
    ensures var n := |es| - 1;
            TakesStaleCancel(es) <==> TakesStaleCancel(es[..n]) || StaleCancel(Run(BOOT, es[..n]), es[n])
  {
    var n := |es| - 1;
    assert forall k :: 0 <= k < n ==> es[..n][k] == es[k] && es[..n][..k] == es[..k];
    hide StaleCancel, Run;
    if k :| 0 <= k < |es| && StaleCancel(Run(BOOT, es[..k]), es[k]) {
      if k < n { assert StaleCancel(Run(BOOT, es[..n][..k]), es[..n][k]); }
    }
    if k :| 0 <= k < n && StaleCancel(Run(BOOT, es[..n][..k]), es[..n][k]) {
      assert StaleCancel(Run(BOOT, es[..k]), es[k]);
    }
  }

  lemma JournalGrows(s: System, e: Event)
    ensures s.terminals <= Step(s, e).terminals
  {
  }

  /** Over a whole run, no terminal event is journaled twice exactly if no step is a stale cancel. */
  lemma {:induction false} TerminalJournaledOnce(es: seq<Event>)
    ensures Distinct(Run(BOOT, es).terminals) <==> !TakesStaleCancel(es)
  {
    if es != [] {
      var n := |es| - 1;
      TerminalJournaledOnce(es[..n]);
      StaleSnoc(es);
      RunKeepsInv(BOOT, es[..n]);
      var s := Run(BOOT, es[..n]);
      JournalGrows(s, es[n]);
      hide StaleCancel, Step, Inv, TakesStaleCancel;
      if Distinct(s.terminals) { StepJournalsOnce(s, es[n]); } else { StillRepeats(s.terminals, Step(s, es[n]).terminals); }
    }
  }

  lemma StillRepeats<T>(a: seq<T>, b: seq<T>)
    requires a <= b && !Distinct(a)
    ensures !Distinct(b)
  {
    var i, j :| 0 <= i < j < |a| && a[i] == a[j];
    assert b[i] == b[j];
  }

  /** Two hubs that both read the run as queued before either cancels it journal its ending twice. */
  lemma CancelRaceJournalsTwice(s: System, h: HubId, g: HubId, id: RunId, error: string, now: Time)
    requires HasState(s.db, id, Queued) && h != g
    ensures Run(s, [ReadForCancel(g, id), ReadForCancel(h, id), ReadForUpdate(h, id), CancelRun(h, id, error, now), JournalCancel(h, id),
                    ReadForUpdate(g, id), CancelRun(g, id, error, now), JournalCancel(g, id)]).terminals
            == s.terminals + [(id, Cancelled), (id, Cancelled)]
  {
    var es := [ReadForCancel(g, id), ReadForCancel(h, id), ReadForUpdate(h, id), CancelRun(h, id, error, now), JournalCancel(h, id),
               ReadForUpdate(g, id), CancelRun(g, id, error, now), JournalCancel(g, id)];
    var t := Step(s, es[0]);
    var u := CancelsQueued(t, h, id, error, now);
    assert u.hubs[g] == t.hubs[g];
    var v := CancelsAgain(u, g, id, error, now);
    RunEight(s, es);
  }

  /** A cancel call of a queued run, alone. */
  lemma CancelsQueued(s: System, h: HubId, id: RunId, error: string, now: Time) returns (t: System)
    requires HasState(s.db, id, Queued)
    ensures t == Step(Step(Step(Step(s, ReadForCancel(h, id)), ReadForUpdate(h, id)), CancelRun(h, id, error, now)), JournalCancel(h, id))
    ensures t.terminals == s.terminals + [(id, Cancelled)] && HasState(t.db, id, Cancelled)
    ensures forall g :: g in s.hubs && g != h ==> g in t.hubs && t.hubs[g] == s.hubs[g]
  {
    var a := Step(s, ReadForCancel(h, id));
    var b := Step(a, ReadForUpdate(h, id));
    assert HubOf(b, h).cancels[id] == Cancelling(true, Some(Queued), false) && b.db == s.db;
    var c := Step(b, CancelRun(h, id, error, now));
    assert HubOf(c, h).cancels[id] == Cancelling(true, Some(Queued), true) && HasState(c.db, id, Cancelled);
    t := Step(c, JournalCancel(h, id));
  }

  /** The rest of a cancel call that saw the run queued, once it has been cancelled. */
  lemma CancelsAgain(s: System, h: HubId, id: RunId, error: string, now: Time) returns (t: System)
    requires HasState(s.db, id, Cancelled) && id in HubOf(s, h).cancels
    requires HubOf(s, h).cancels[id] == Cancelling(true, None, false)
    ensures t == Step(Step(Step(s, ReadForUpdate(h, id)), CancelRun(h, id, error, now)), JournalCancel(h, id))
    ensures t.terminals == s.terminals + [(id, Cancelled)]
  {
    var b := Step(s, ReadForUpdate(h, id));
    assert HubOf(b, h).cancels[id] == Cancelling(true, Some(Cancelled), false) && b.db == s.db;
    var c := Step(b, CancelRun(h, id, error, now));
    assert HubOf(c, h).cancels[id] == Cancelling(true, Some(Cancelled), true) && c.db == s.db;
    t := Step(c, JournalCancel(h, id));
  }

  lemma {:induction false} RunSplit(s: System, es: seq<Event>, k: nat)
    requires k <= |es|
    ensures Run(s, es) == Run(Run(s, es[..k]), es[k..])
  {
    if k == |es| {
      assert es[..k] == es;
    } else {
      var before := es[..|es| - 1];
      RunSplit(s, before, k);
      assert before[..k] == es[..k] && es[k..][..|es[k..]| - 1] == before[k..];
    }
  }

  lemma RunFour(s: System, es: seq<Event>)
    requires |es| == 4
    ensures Run(s, es) == Step(Step(Step(Step(s, es[0]), es[1]), es[2]), es[3])
  {
    hide Step;
    assert es[..3][..2] == es[..2] && es[..2][..1] == es[..1] && es[..1][..0] == [];
    assert Run(s, es[..1]) == Step(s, es[0]);
    assert Run(s, es[..2]) == Step(Step(s, es[0]), es[1]);
    assert Run(s, es[..3]) == Step(Step(Step(s, es[0]), es[1]), es[2]);
  }

  lemma RunEight(s: System, es: seq<Event>)
    requires |es| == 8
    ensures Run(s, es) == Step(Step(Step(Step(Step(Step(Step(Step(s, es[0]), es[1]), es[2]), es[3]), es[4]), es[5]), es[6]), es[7])
  {
    hide Step;
    RunSplit(s, es, 4);
    RunFour(s, es[..4]);
    RunFour(Run(s, es[..4]), es[4..]);
  }

  // ---- when a cancel takes effect -------------------------------------------------------------------------

  /** The event does not move the cancel call of hub h for this run. */
  predicate LeavesCancel(e: Event, h: HubId, id: RunId) {
    match e
    case Crash(g) => g != h
    case ReadForCancel(g, i) => g != h || i != id
    case ReadForUpdate(g, i) => g != h || i != id
    case CancelRun(g, i, _, _) => g != h || i != id
    case JournalCancel(g, i) => g != h || i != id
    case _ => true
  }

  lemma CancelKept(s: System, e: Event, h: HubId, id: RunId)
    requires LeavesCancel(e, h, id) && id in HubOf(s, h).cancels
    ensures id in HubOf(Step(s, e), h).cancels && HubOf(Step(s, e), h).cancels[id] == HubOf(s, h).cancels[id]
  {
  }

  lemma {:induction false} CancelKeptOver(s: System, es: seq<Event>, h: HubId, id: RunId)
    requires (forall i :: 0 <= i < |es| ==> LeavesCancel(es[i], h, id)) && id in HubOf(s, h).cancels
    ensures id in HubOf(Run(s, es), h).cancels && HubOf(Run(s, es), h).cancels[id] == HubOf(s, h).cancels[id]
  {
    if es != [] {
      var n := |es| - 1;
      assert forall i :: 0 <= i < n ==> es[..n][i] == es[i];
      CancelKeptOver(s, es[..n], h, id);
      CancelKept(Run(s, es[..n]), es[n], h, id);
    }
  }

  /**
   A cancel of a run that was not over, whatever happens between its read and its UPDATE: it takes
   effect exactly if the run has not moved on meanwhile, or was cancelled by somebody else.
  */
  lemma CancelTakesEffectExactly(s: System, h: HubId, id: RunId, es: seq<Event>, error: string, now: Time)
    requires Inv(s) && id in s.db.runs && !s.db.runs[id].state.Terminal() && id in HubOf(s, h).cancels
    requires !HubOf(s, h).cancels[id].updated && forall i :: 0 <= i < |es| ==> LeavesCancel(es[i], h, id)
    ensures var u := Run(Step(s, ReadForUpdate(h, id)), es); var t := Step(u, CancelRun(h, id, error, now));
            && id in u.db.runs
            && (CancelTaken(t.db, id) <==> CancelTaken(u.db, id) || u.db.runs[id].state == s.db.runs[id].state)
  {
    var r := Step(s, ReadForUpdate(h, id));
    ReadsState(s, h, id);
    StepKeepsInv(s, ReadForUpdate(h, id));
    hide Run, Step, Inv, CancelUpdate, LeavesCancel, CancelTaken;
    RunKeepsInv(r, es);
    CancelKeptOver(r, es, h, id);
    var u := Run(r, es);
    UpdatesWith(u, h, id, s.db.runs[id].state, error, now);
    CancelTakenExactly(u.db, id, s.db.runs[id].state, error, now);
  }

  lemma ReadsState(s: System, h: HubId, id: RunId)
    requires id in HubOf(s, h).cancels && id in s.db.runs
    ensures var r := Step(s, ReadForUpdate(h, id));
      && r.db == s.db && id in HubOf(r, h).cancels
      && HubOf(r, h).cancels[id] == HubOf(s, h).cancels[id].(read := Some(s.db.runs[id].state))
  {
  }

  lemma UpdatesWith(u: System, h: HubId, id: RunId, read: RunState, error: string, now: Time)
    requires id in HubOf(u, h).cancels && HubOf(u, h).cancels[id].read == Some(read) && !HubOf(u, h).cancels[id].updated
    ensures Step(u, CancelRun(h, id, error, now)).db == CancelUpdate(u.db, id, read, error, now)
  {
  }

  /** The losing case: another hub claims the run in between, and the running run carries no request. */
  lemma CancelLost(s: System, h: HubId, g: HubId, id: RunId, error: string, now: Time)
    requires h != g && HasState(s.db, id, Queued) && !s.db.runs[id].cancelRequested
    requires id in HubOf(s, g).ready && TryClaim(s.db, id, now).1
    ensures var t := Run(s, [ReadForCancel(h, id), ReadForUpdate(h, id), ClaimRun(g, id, now), CancelRun(h, id, error, now)]);
            HasState(t.db, id, Running) && !CancelTaken(t.db, id)
  {
    var es := [ReadForCancel(h, id), ReadForUpdate(h, id), ClaimRun(g, id, now), CancelRun(h, id, error, now)];
    var b := SeesQueued(s, h, g, id);
    var c := Step(b, ClaimRun(g, id, now));
    Claims(b, h, g, id, now);
    UpdatesWith(c, h, id, Queued, error, now);
    hide Step, Inv;
    RunFour(s, es);
  }

  lemma SeesQueued(s: System, h: HubId, g: HubId, id: RunId) returns (b: System)
    requires HasState(s.db, id, Queued) && h != g
    ensures b == Step(Step(s, ReadForCancel(h, id)), ReadForUpdate(h, id)) && b.db == s.db
    ensures id in HubOf(b, h).cancels && HubOf(b, h).cancels[id] == Cancelling(true, Some(Queued), false)
    ensures HubOf(b, g) == HubOf(s, g)
  {
    b := Step(Step(s, ReadForCancel(h, id)), ReadForUpdate(h, id));
  }

  lemma Claims(b: System, h: HubId, g: HubId, id: RunId, now: Time)
    requires h != g && id in HubOf(b, g).ready && TryClaim(b.db, id, now).1
    ensures var c := Step(b, ClaimRun(g, id, now));
      && HubOf(c, h) == HubOf(b, h) && HasState(c.db, id, Running)
      && c.db.runs[id].cancelRequested == b.db.runs[id].cancelRequested
  {
  }
}
