/**
 One pass of the queue pump as a function of the ledger, and why the queue cannot get stuck:
 a pass over a nonempty queue with nothing running always removes a run from it.
*/
module RunQueue {
  import opened Prelude
  import opened RunLedger

  function QueuedSet(db: Db): set<RunId> {
    set id | id in db.runs && db.runs[id].state.Queued?
  }

  ghost predicate Idle(db: Db) {
    forall id :: id in db.runs ==> !db.runs[id].state.Running?
  }

  /** `ids` lists the queued runs, each once, in whatever order the query returned them. */
  ghost predicate ListsQueue(db: Db, ids: seq<RunId>) {
    Distinct(ids) && forall id :: id in ids <==> HasState(db, id, Queued)
  }

  /** The prerequisite ended badly, or there is no such row. */
  predicate Blocked(db: Db, prerequisite: RunId) {
    prerequisite !in db.runs || (db.runs[prerequisite].state.Terminal() && !db.runs[prerequisite].state.Succeeded?)
  }

  /**
   The loop body of the pump for one queued run. `launchFails` says whether spawning throws, in
   which case the claimed run is finished as failed at once.
  */
  function PumpOne(db: Db, id: RunId, launchFails: bool, error: string, now: Time): Db {
    if id !in db.runs then db
    else
      var prerequisite := db.runs[id].dependsOn;
      if prerequisite.Some? && Blocked(db, prerequisite.value) then FailQueued(db, id, error, now).0
      else if prerequisite.Some? && !db.runs[prerequisite.value].state.Succeeded? then db
      else
        var (db', ok) := TryClaim(db, id, now);
        if ok && launchFails then
          Finish(db', id, Failed, NO_RECEIPT.(error := Some(error)), now).0
        else db'
  }

  /**
   What one look at a queued run does: it is failed if its prerequisite is missing or ended badly,
   left alone while the prerequisite has not ended or a resource is held, and otherwise started,
   or failed at once if launching it throws.
  */
  lemma PumpOneDecides(db: Db, id: RunId, launchFails: bool, error: string, now: Time)
    requires HasState(db, id, Queued) && Distinct(db.runs[id].resources)
    requires forall r :: r in db.runs[id].resources && r in db.leases ==> db.leases[r] != id
    ensures var row := db.runs[id];
            var looked := PumpOne(db, id, launchFails, error, now);
            var waitsFor := row.dependsOn;
            if waitsFor.Some? && (waitsFor.value !in db.runs || db.runs[waitsFor.value].state in {Failed, Cancelled, OutcomeUnknown}) then
              looked == db.(runs := db.runs[id := row.(
                              state := Failed, completedAt := Some(now), heartbeatAt := Some(now),
                              receipt := row.receipt.(error := Some(error), exitCode := None))])
            else if waitsFor.Some? && db.runs[waitsFor.value].state in {Queued, Running} then looked == db
            else if exists r :: r in row.resources && r in db.leases then looked == db
            else if !launchFails then
              looked == Db(db.runs[id := row.(state := Running, startedAt := Some(now), heartbeatAt := Some(now))],
                           db.leases + (map r | r in row.resources :: id), db.nextRowid)
            else
              && looked.runs == db.runs[id := row.(
                                  state := Failed, startedAt := Some(now), completedAt := Some(now),
                                  heartbeatAt := Some(now), receipt := NO_RECEIPT.(error := Some(error)))]
              && forall r :: r in looked.leases <==> r in db.leases && db.leases[r] != id
  {
    var row := db.runs[id];
    if row.dependsOn.None? || HasState(db, row.dependsOn.value, Succeeded) {
      assert Contended(db, id, row.resources) <==> exists r :: r in row.resources && r in db.leases;
      assert InsertIgnored(db, row.resources) <==> exists r :: r in row.resources && r in db.leases;
    }
  }

  function PumpPass(db: Db, ids: seq<RunId>, launchFailures: set<RunId>, error: string, now: Time): Db {
    if ids == [] then db
    else
      var last := ids[|ids| - 1];
      PumpOne(PumpPass(db, ids[..|ids| - 1], launchFailures, error, now), last, last in launchFailures, error, now)
  }

  lemma PumpClaimSound(db: Db, id: RunId, launchFails: bool, error: string, now: Time)
    requires Sound(db) && id in db.runs
    requires db.runs[id].dependsOn.Some? ==> HasState(db, db.runs[id].dependsOn.value, Succeeded)
    ensures var db' := PumpOne(db, id, launchFails, error, now);
            Sound(db') && Advances(db, db') && db'.runs.Keys == db.runs.Keys
  {
    ClaimSound(db, id, now);
    hide Sound, Advances, TryClaim, Finish;
    var (mid, ok) := TryClaim(db, id, now);
    if ok && launchFails {
      FinishSound(mid, id, Failed, NO_RECEIPT.(error := Some(error)), now);
      AdvancesTransitive(db, mid, PumpOne(db, id, launchFails, error, now));
    }
  }

  lemma PumpOneSound(db: Db, id: RunId, launchFails: bool, error: string, now: Time)
    requires Sound(db)
    ensures var db' := PumpOne(db, id, launchFails, error, now);
            Sound(db') && Advances(db, db') && db'.runs.Keys == db.runs.Keys
  {
    if id in db.runs {
      var prerequisite := db.runs[id].dependsOn;
      if prerequisite.Some? && Blocked(db, prerequisite.value) {
        FailQueuedSound(db, id, error, now);
      } else if prerequisite.None? || db.runs[prerequisite.value].state.Succeeded? {
        PumpClaimSound(db, id, launchFails, error, now);
      }
    }
  }

  lemma {:induction false} PumpPassSound(db: Db, ids: seq<RunId>, launchFailures: set<RunId>, error: string, now: Time)
    requires Sound(db)
    ensures var db' := PumpPass(db, ids, launchFailures, error, now);
            Sound(db') && Advances(db, db') && db'.runs.Keys == db.runs.Keys
  {
    if ids != [] {
      var before := ids[..|ids| - 1];
      PumpPassSound(db, before, launchFailures, error, now);
      var mid := PumpPass(db, before, launchFailures, error, now);
      var last := ids[|ids| - 1];
      PumpOneSound(mid, last, last in launchFailures, error, now);
      AdvancesTransitive(db, mid, PumpPass(db, ids, launchFailures, error, now));
    }
  }

  /** The pump either leaves the ledger alone or takes the run it looked at off the queue. */
  lemma PumpOneDequeuesOrSkips(db: Db, id: RunId, launchFails: bool, error: string, now: Time)
    requires Sound(db) && HasState(db, id, Queued)
    ensures var db' := PumpOne(db, id, launchFails, error, now);
            db' == db || !HasState(db', id, Queued)
  {
    ClaimOutcome(db, id, now);
  }

  /** A pass that dequeued nothing changed nothing. */
  lemma {:induction false} StuckPassChangesNothing(db: Db, ids: seq<RunId>, launchFailures: set<RunId>, error: string, now: Time)
    requires Sound(db)
    requires forall id :: id in ids ==> HasState(db, id, Queued)
    requires forall id :: id in ids ==> HasState(PumpPass(db, ids, launchFailures, error, now), id, Queued)
    ensures PumpPass(db, ids, launchFailures, error, now) == db
    ensures forall id :: id in ids ==> PumpOne(db, id, id in launchFailures, error, now) == db
  {
    if ids != [] {
      var before := ids[..|ids| - 1];
      var last := ids[|ids| - 1];
      var mid := PumpPass(db, before, launchFailures, error, now);
      var end := PumpPass(db, ids, launchFailures, error, now);
      PumpPassSound(db, before, launchFailures, error, now);
      PumpOneSound(mid, last, last in launchFailures, error, now);
      forall id | id in before ensures HasState(mid, id, Queued) {
        assert id in ids;
        assert RowAdvances(mid.runs[id], end.runs[id]);
      }
      StuckPassChangesNothing(db, before, launchFailures, error, now);
      PumpOneDequeuesOrSkips(db, last, last in launchFailures, error, now);
      forall id | id in ids ensures PumpOne(db, id, id in launchFailures, error, now) == db {
        assert id in before || id == last;
      }
    }
  }

  lemma {:induction false} OldestExists(db: Db, ids: seq<RunId>) returns (oldest: RunId)
    requires ids != [] && forall id :: id in ids ==> id in db.runs
    ensures oldest in ids && forall id :: id in ids ==> db.runs[oldest].rowid <= db.runs[id].rowid
  {
    oldest := ids[0];
    if |ids| > 1 {
      var rest := OldestExists(db, ids[1..]);
      assert forall id :: id in ids ==> id == ids[0] || id in ids[1..];
      if db.runs[rest].rowid < db.runs[oldest].rowid { oldest := rest; }
    }
  }

  /**
   When nothing is running, a pass over a nonempty queue removes at least one run from it:
   the oldest queued run has no queued or running prerequisite, and no lease stands in its way.
  */
  lemma PassRemovesARun(db: Db, ids: seq<RunId>, launchFailures: set<RunId>, error: string, now: Time)
    requires Sound(db) && Idle(db) && ListsQueue(db, ids) && ids != []
    ensures QueuedSet(PumpPass(db, ids, launchFailures, error, now)) < QueuedSet(db)
  {
    var db' := PumpPass(db, ids, launchFailures, error, now);
    PumpPassSound(db, ids, launchFailures, error, now);
    forall id | id in QueuedSet(db') ensures id in QueuedSet(db) {
      assert RowAdvances(db.runs[id], db'.runs[id]);
    }
    if forall id :: id in ids ==> HasState(db', id, Queued) {
      StuckPassChangesNothing(db, ids, launchFailures, error, now);
      var oldest := OldestExists(db, ids);
      OldestIsDequeued(db, ids, oldest, oldest in launchFailures, error, now);
      assert false;
    }
    var gone :| gone in ids && !HasState(db', gone, Queued);
    assert gone in QueuedSet(db) && gone !in QueuedSet(db');
  }

  lemma OldestIsDequeued(db: Db, ids: seq<RunId>, oldest: RunId, launchFails: bool, error: string, now: Time)
    requires Sound(db) && Idle(db) && ListsQueue(db, ids) && oldest in ids
    requires forall id :: id in ids ==> db.runs[oldest].rowid <= db.runs[id].rowid
    ensures PumpOne(db, oldest, launchFails, error, now) != db
  {
    assert HasState(db, oldest, Queued);
    var prerequisite := db.runs[oldest].dependsOn;
    if prerequisite.Some? {
      assert prerequisite.value in db.runs && prerequisite.value !in ids;
    }
    ClaimOutcome(db, oldest, now);
    forall r | r in db.runs[oldest].resources ensures r !in db.leases {
      assert r in db.leases ==> HasState(db, db.leases[r], Running);
    }
  }

  // ---- draining -----------------------------------------------------------------------------

  datatype Ending = Ending(id: RunId, state: RunState, receipt: Receipt)

  /** One pump pass followed by the completions of everything that was running. */
  datatype Round = Round(order: seq<RunId>, launchFailures: set<RunId>, endings: seq<Ending>, error: string, now: Time)

  function FinishMany(db: Db, endings: seq<Ending>, now: Time): Db {
    if endings == [] then db
    else
      var last := endings[|endings| - 1];
      Finish(FinishMany(db, endings[..|endings| - 1], now), last.id, last.state, last.receipt, now).0
  }

  function AfterRound(db: Db, r: Round): Db {
    FinishMany(PumpPass(db, r.order, r.launchFailures, r.error, r.now), r.endings, r.now)
  }

  ghost predicate FairRound(db: Db, r: Round) {
    && ListsQueue(db, r.order)
    && (forall e :: e in r.endings ==> e.state.Terminal())
    && Idle(AfterRound(db, r))
  }

  function AfterRounds(db: Db, rounds: seq<Round>): Db
    decreases |rounds|
  {
    if rounds == [] then db else AfterRounds(AfterRound(db, rounds[0]), rounds[1..])
  }

  ghost predicate FairRounds(db: Db, rounds: seq<Round>)
    decreases |rounds|
  {
    rounds == [] || (FairRound(db, rounds[0]) && FairRounds(AfterRound(db, rounds[0]), rounds[1..]))
  }

  lemma {:induction false} FinishManySound(db: Db, endings: seq<Ending>, now: Time)
    requires Sound(db) && forall e :: e in endings ==> e.state.Terminal()
    ensures var db' := FinishMany(db, endings, now);
            Sound(db') && Advances(db, db') && db'.runs.Keys == db.runs.Keys
  {
    if endings != [] {
      var before := endings[..|endings| - 1];
      var last := endings[|endings| - 1];
      assert last in endings;
      FinishManySound(db, before, now);
      var mid := FinishMany(db, before, now);
      FinishSound(mid, last.id, last.state, last.receipt, now);
      AdvancesTransitive(db, mid, FinishMany(db, endings, now));
    }
  }

  lemma RoundShrinksQueue(db: Db, r: Round)
    requires Sound(db) && Idle(db) && FairRound(db, r)
    ensures Sound(AfterRound(db, r)) && QueuedSet(AfterRound(db, r)) <= QueuedSet(db)
    ensures QueuedSet(db) != {} ==> QueuedSet(AfterRound(db, r)) < QueuedSet(db)
  {
    var mid := PumpPass(db, r.order, r.launchFailures, r.error, r.now);
    PumpPassSound(db, r.order, r.launchFailures, r.error, r.now);
    FinishManySound(mid, r.endings, r.now);
    var end := AfterRound(db, r);
    forall id | id in QueuedSet(end) ensures id in QueuedSet(mid) && id in QueuedSet(db) {
      assert RowAdvances(mid.runs[id], end.runs[id]);
      assert RowAdvances(db.runs[id], mid.runs[id]);
    }
    if QueuedSet(db) != {} {
      var id :| id in QueuedSet(db);
      assert id in r.order;
      PassRemovesARun(db, r.order, r.launchFailures, r.error, r.now);
    }
  }

  /** The queue drains: as many rounds as there are queued runs empty it. */
  lemma {:induction false} QueueDrains(db: Db, rounds: seq<Round>)
    requires Sound(db) && Idle(db) && FairRounds(db, rounds) && |rounds| >= |QueuedSet(db)|
    ensures QueuedSet(AfterRounds(db, rounds)) == {}
    decreases |rounds|
  {
    if rounds != [] {
      var next := AfterRound(db, rounds[0]);
      RoundShrinksQueue(db, rounds[0]);
      SubsetCard(QueuedSet(next), QueuedSet(db));
      QueueDrains(next, rounds[1..]);
    }
  }
}
