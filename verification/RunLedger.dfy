/**
 The two tables of the durable run ledger, and every SQL transaction on them as one
 function from table contents to table contents. `RunStore.dfy` holds the imperative
 store that executes these transactions; `RunSystem.dfy` lets any number of hub
 processes interleave them.
*/
module RunLedger {
  import opened Prelude
  import Text

  type RunId = string
  type Resource = string
  type Time = int

  datatype RunState = Queued | Running | Succeeded | Failed | Cancelled | OutcomeUnknown {
    predicate Terminal() { !Queued? && !Running? }
  }

  /** What a witnessed completion writes besides the state. */
  datatype Receipt = Receipt(
    exitCode: Option<int>, signal: Option<string>, error: Option<string>,
    stdoutBytes: nat, stderrBytes: nat, logsTruncated: bool, result: Option<string>)

  const NO_RECEIPT := Receipt(None, None, None, 0, 0, false, None)

  /** One row of durable_runs. `rowid` is SQLite's own insertion counter. */
  datatype Row = Row(
    rowid: nat, project: string, dependsOn: Option<RunId>, resources: seq<Resource>,
    state: RunState, createdAt: Time, startedAt: Option<Time>, heartbeatAt: Option<Time>,
    completedAt: Option<Time>, receipt: Receipt, cancelRequested: bool,
    continuationAt: Option<Time>)

  /** durable_runs by id, durable_run_leases by resource key. */
  datatype Db = Db(runs: map<RunId, Row>, leases: map<Resource, RunId>, nextRowid: nat)

  const EMPTY_DB := Db(map[], map[], 0)

  // ---- resource keys ----------------------------------------------------------------

  const MAX_RESOURCE_CHARS := 500

  predicate IsControl(c: char) { c < ' ' || c == '\U{7F}' }

  function BlankControls(s: string): string {
    seq(|s|, i requires 0 <= i < |s| => if IsControl(s[i]) then ' ' else s[i])
  }

  function BoundedText(s: string, maximum: nat): string {
    var t := Text.Trim(BlankControls(s));
    if |t| <= maximum then t else t[..maximum]
  }

  /**
   What bounding does: control characters become blanks, surrounding whitespace goes, and at most
   `maximum` characters of the rest are kept.
  */
  lemma BoundedTextMeans(s: string, maximum: nat) returns (front: nat, back: nat)
    ensures front <= back <= |s|
    ensures var clean := seq(|s|, i requires 0 <= i < |s| => if s[i] < ' ' || s[i] == '\U{7F}' then ' ' else s[i]);
      && (forall i :: 0 <= i < front || back <= i < |s| ==> Text.IsSpace(clean[i]))
      && (front < back ==> !Text.IsSpace(clean[front]) && !Text.IsSpace(clean[back - 1]))
      && BoundedText(s, maximum) == (if back - front <= maximum then clean[front..back] else clean[front..front + maximum])
  {
    var clean := BlankControls(s);
    front, back := Text.TrimMeans(clean);
    assert clean == seq(|s|, i requires 0 <= i < |s| => if s[i] < ' ' || s[i] == '\U{7F}' then ' ' else s[i]);
    if back - front > maximum { assert clean[front..back][..maximum] == clean[front..front + maximum]; }
  }

  /** Bounded, blanks dropped, duplicates dropped, sorted. */
  function NormalizeResources(raw: seq<string>): (r: seq<Resource>)
    ensures Text.StrictlySorted(r)
    ensures forall x :: x in r <==> x != "" && exists y :: y in raw && x == BoundedText(y, MAX_RESOURCE_CHARS)
  {
    if raw == [] then []
    else
      var rest := NormalizeResources(raw[1..]);
      var x := BoundedText(raw[0], MAX_RESOURCE_CHARS);
      assert forall y :: y in raw <==> y == raw[0] || y in raw[1..];
      if x == "" then rest else Text.InsertSorted(x, rest)
  }

  lemma NormalizedDistinct(raw: seq<string>)
    ensures Distinct(NormalizeResources(raw))
  {
    var r := NormalizeResources(raw);
    forall i, j | 0 <= i < j < |r| ensures r[i] != r[j] {
      Text.LessIrreflexive(r[i]);
    }
  }

  predicate HasState(db: Db, id: RunId, state: RunState) {
    id in db.runs && db.runs[id].state == state
  }

  predicate Distinct<T(==)>(s: seq<T>) {
    forall i, j :: 0 <= i < j < |s| ==> s[i] != s[j]
  }

  // ---- transactions ---------------------------------------------------------------

  /** INSERT of a queued row. A second row under one primary key is refused by SQLite. */
  function Create(db: Db, id: RunId, project: string, dependsOn: Option<RunId>,
                  resources: seq<Resource>, now: Time): Db
  {
    if id in db.runs then db
    else db.(
      runs := db.runs[id := Row(db.nextRowid, project, dependsOn, resources, Queued, now,
                                None, None, None, NO_RECEIPT, false, None)],
      nextRowid := db.nextRowid + 1)
  }

  function ReleaseLeases(leases: map<Resource, RunId>, id: RunId): map<Resource, RunId> {
    map r | r in leases && leases[r] != id :: leases[r]
  }

  function AcquireLeases(leases: map<Resource, RunId>, resources: seq<Resource>, id: RunId)
    : map<Resource, RunId>
  {
    leases + map r | r in resources :: id
  }

  /** Some resource is leased by another run. */
  predicate Contended(db: Db, id: RunId, resources: seq<Resource>) {
    exists r :: r in resources && r in db.leases && db.leases[r] != id
  }

  /** An INSERT OR IGNORE that changes nothing: the resource repeats or is already leased. */
  predicate InsertIgnored(db: Db, resources: seq<Resource>) {
    !Distinct(resources) || exists r :: r in resources && r in db.leases
  }

  /** The claim transaction, with the ignored-insert path that releases and refuses. */
  function Claim(db: Db, id: RunId, resources: seq<Resource>, now: Time): (Db, bool) {
    if !HasState(db, id, Queued) || Contended(db, id, resources) then (db, false)
    else if InsertIgnored(db, resources) then
      (db.(leases := ReleaseLeases(AcquireLeases(db.leases, resources, id), id)), false)
    else
      (db.(runs := db.runs[id := db.runs[id].(
                     state := Running, startedAt := Some(now), heartbeatAt := Some(now))],
           leases := AcquireLeases(db.leases, resources, id)), true)
  }

  function TryClaim(db: Db, id: RunId, now: Time): (Db, bool) {
    if id in db.runs then Claim(db, id, db.runs[id].resources, now) else (db, false)
  }

  /** Terminal update of a running row and release of its leases, or nothing. */
  function Finish(db: Db, id: RunId, state: RunState, receipt: Receipt, now: Time): (Db, bool) {
    if !HasState(db, id, Running) then (db, false)
    else
      (db.(runs := db.runs[id := db.runs[id].(
                     state := state, completedAt := Some(now), heartbeatAt := Some(now),
                     receipt := receipt)],
           leases := ReleaseLeases(db.leases, id)), true)
  }

  /**
   The UPDATE of requestCancel, chosen by the state an earlier statement read: a queued run is
   cancelled outright, a running one only carries the request, and either only if it still is so.
  */
  function CancelUpdate(db: Db, id: RunId, read: RunState, error: string, now: Time): Db {
    if !HasState(db, id, read) then db
    else if read.Queued? then
      db.(runs := db.runs[id := db.runs[id].(
                    state := Cancelled, cancelRequested := true, completedAt := Some(now),
                    receipt := db.runs[id].receipt.(error := Some(error)))])
    else if read.Running? then
      db.(runs := db.runs[id := db.runs[id].(cancelRequested := true)])
    else db
  }

  /** The cancel took effect: the run ended cancelled, or carries the request for its owner to see. */
  predicate CancelTaken(db: Db, id: RunId) {
    id in db.runs && (db.runs[id].state.Cancelled? || db.runs[id].cancelRequested)
  }

  function FailQueued(db: Db, id: RunId, error: string, now: Time): (Db, bool) {
    if !HasState(db, id, Queued) then (db, false)
    else
      (db.(runs := db.runs[id := db.runs[id].(
                     state := Failed, completedAt := Some(now), heartbeatAt := Some(now),
                     receipt := db.runs[id].receipt.(error := Some(error), exitCode := None))]), true)
  }

  /** Reconciliation of one run: keeps the byte counters, records the unknown outcome. */
  function Interrupt(db: Db, id: RunId, error: string, now: Time): (Db, bool) {
    if id in db.runs then
      Finish(db, id, OutcomeUnknown, db.runs[id].receipt.(error := Some(error)), now)
    else (db, false)
  }

  /** The reconciliation transaction over candidates that were read earlier. */
  function Reconcile(db: Db, candidates: seq<RunId>, error: string, now: Time): Db {
    if candidates == [] then db
    else Interrupt(Reconcile(db, candidates[..|candidates| - 1], error, now),
                   candidates[|candidates| - 1], error, now).0
  }

  function Heartbeat(db: Db, id: RunId, now: Time): Db {
    if HasState(db, id, Running) then
      db.(runs := db.runs[id := db.runs[id].(heartbeatAt := Some(now))])
    else db
  }

  function MarkContinuation(db: Db, id: RunId, now: Time): Db {
    if id in db.runs && db.runs[id].state.Terminal() && db.runs[id].continuationAt.None? then
      db.(runs := db.runs[id := db.runs[id].(continuationAt := Some(now))])
    else db
  }

  // ---- what every transaction keeps -------------------------------------------------

  /** The leases of a run are exactly its resource set while it runs, and none otherwise. */
  ghost predicate LeasesExact(db: Db) {
    forall r, id ::
      (r in db.leases && db.leases[r] == id) <==>
      (HasState(db, id, Running) && r in db.runs[id].resources)
  }

  /** Resource lists carry no repetition, as the create path normalises them. */
  ghost predicate ResourcesDistinct(db: Db) {
    forall id :: id in db.runs ==> Distinct(db.runs[id].resources)
  }

  /** A prerequisite is a row of the same project that was inserted before its dependent. */
  ghost predicate EdgesBackward(db: Db) {
    forall id {:trigger id in db.runs} :: id in db.runs ==>
      && db.runs[id].rowid < db.nextRowid
      && (db.runs[id].dependsOn.Some? ==>
           && db.runs[id].dependsOn.value in db.runs
           && db.runs[db.runs[id].dependsOn.value].project == db.runs[id].project
           && db.runs[db.runs[id].dependsOn.value].rowid < db.runs[id].rowid)
  }

  ghost predicate PrerequisiteSucceeded(db: Db, id: RunId) {
    id in db.runs && (db.runs[id].dependsOn.Some? ==> HasState(db, db.runs[id].dependsOn.value, Succeeded))
  }

  /** Every run that was ever started has a prerequisite that succeeded. */
  ghost predicate StartsJustified(db: Db) {
    forall id :: id in db.runs && db.runs[id].startedAt.Some? ==> PrerequisiteSucceeded(db, id)
  }

  /** A running run has a start time; a queued one has none. */
  ghost predicate StartTimes(db: Db) {
    forall id :: id in db.runs ==>
      && (db.runs[id].state.Running? ==> db.runs[id].startedAt.Some?)
      && (db.runs[id].state.Queued? ==> db.runs[id].startedAt.None?)
  }

  ghost predicate Sound(db: Db) {
    LeasesExact(db) && ResourcesDistinct(db) && EdgesBackward(db) && StartsJustified(db) && StartTimes(db)
  }

  /** Everything but the continuation mark of a terminal row is final. */
  ghost predicate SameOutcome(a: Row, b: Row) {
    a.(continuationAt := None) == b.(continuationAt := None)
  }

  /**
   What one transaction may do to the rows: rows stay, terminal rows are final, a run never
   returns to the queue, and a start time is set once.
  */
  ghost predicate Advances(db: Db, db': Db) {
    && db.nextRowid <= db'.nextRowid
    && (forall id :: id in db.runs ==> id in db'.runs && RowAdvances(db.runs[id], db'.runs[id]))
  }

  ghost predicate RowAdvances(a: Row, b: Row) {
    && a.rowid == b.rowid && a.dependsOn == b.dependsOn && a.resources == b.resources
    && a.createdAt == b.createdAt && a.project == b.project
    && (a.state.Terminal() ==> SameOutcome(a, b))
    && (!a.state.Queued? ==> !b.state.Queued? && a.startedAt == b.startedAt)
  }

  lemma AdvancesTransitive(a: Db, b: Db, c: Db)
    requires Advances(a, b) && Advances(b, c)
    ensures Advances(a, c)
  {
    forall id | id in a.runs ensures id in c.runs && RowAdvances(a.runs[id], c.runs[id]) {
      assert RowAdvances(a.runs[id], b.runs[id]);
      assert RowAdvances(b.runs[id], c.runs[id]);
    }
  }

  /** Two running runs never hold a common resource. */
  lemma RunningRunsDisjoint(db: Db, a: RunId, b: RunId, r: Resource)
    requires LeasesExact(db)
    requires HasState(db, a, Running) && HasState(db, b, Running)
    requires r in db.runs[a].resources && r in db.runs[b].resources
    ensures a == b
  {
    assert db.leases[r] == a;
    assert db.leases[r] == b;
  }

  lemma CreateSound(db: Db, id: RunId, project: string, dependsOn: Option<RunId>,
                    resources: seq<Resource>, now: Time)
    requires Sound(db) && Distinct(resources)
    requires dependsOn.Some? ==> dependsOn.value in db.runs && db.runs[dependsOn.value].project == project
    ensures var db' := Create(db, id, project, dependsOn, resources, now);
            Sound(db') && Advances(db, db')
  {
    CreateEdges(db, id, project, dependsOn, resources, now);
    CreateStarts(db, id, project, dependsOn, resources, now);
    CreateLeases(db, id, project, dependsOn, resources, now);
    hide EdgesBackward, StartsJustified, LeasesExact;
  }

  lemma CreateLeases(db: Db, id: RunId, project: string, dependsOn: Option<RunId>,
                     resources: seq<Resource>, now: Time)
    requires LeasesExact(db)
    ensures LeasesExact(Create(db, id, project, dependsOn, resources, now))
  {
    var db' := Create(db, id, project, dependsOn, resources, now);
    forall x ensures HasState(db', x, Running) <==> HasState(db, x, Running) {}
  }

  lemma CreateEdges(db: Db, id: RunId, project: string, dependsOn: Option<RunId>,
                    resources: seq<Resource>, now: Time)
    requires EdgesBackward(db)
    requires dependsOn.Some? ==> dependsOn.value in db.runs && db.runs[dependsOn.value].project == project
    ensures EdgesBackward(Create(db, id, project, dependsOn, resources, now))
  {
  }

  lemma CreateStarts(db: Db, id: RunId, project: string, dependsOn: Option<RunId>,
                     resources: seq<Resource>, now: Time)
    requires StartsJustified(db)
    ensures StartsJustified(Create(db, id, project, dependsOn, resources, now))
  {
    var db' := Create(db, id, project, dependsOn, resources, now);
    forall x | x in db'.runs && db'.runs[x].startedAt.Some? ensures PrerequisiteSucceeded(db', x) {
      assert x in db.runs && PrerequisiteSucceeded(db, x);
    }
  }

  /** In a sound ledger the ignored-insert path of the claim is never taken. */
  lemma ClaimOutcome(db: Db, id: RunId, now: Time)
    requires LeasesExact(db) && ResourcesDistinct(db)
    ensures TryClaim(db, id, now).1 <==>
              HasState(db, id, Queued) && forall r :: r in db.runs[id].resources ==> r !in db.leases
    ensures !TryClaim(db, id, now).1 ==> TryClaim(db, id, now).0 == db
  {
    if HasState(db, id, Queued) {
      var resources := db.runs[id].resources;
      assert forall r :: r in db.leases ==> db.leases[r] != id;
      if !Contended(db, id, resources) {
        assert forall r :: r in resources ==> r !in db.leases;
      }
    }
  }

  lemma ClaimLeasesExact(db: Db, id: RunId, now: Time)
    requires LeasesExact(db) && TryClaim(db, id, now).1
    ensures LeasesExact(TryClaim(db, id, now).0)
  {
    var db' := TryClaim(db, id, now).0;
    forall r, x ensures (r in db'.leases && db'.leases[r] == x) <==>
                        (HasState(db', x, Running) && r in db'.runs[x].resources) {
      assert (r in db.leases && db.leases[r] == x) <==>
             (HasState(db, x, Running) && r in db.runs[x].resources);
    }
  }

  lemma ClaimSound(db: Db, id: RunId, now: Time)
    requires Sound(db) && PrerequisiteSucceeded(db, id)
    ensures Sound(TryClaim(db, id, now).0) && Advances(db, TryClaim(db, id, now).0)
  {
    ClaimOutcome(db, id, now);
    if TryClaim(db, id, now).1 {
      ClaimLeasesExact(db, id, now);
      ClaimStartsJustified(db, id, now);
    }
  }

  lemma ClaimStartsJustified(db: Db, id: RunId, now: Time)
    requires StartsJustified(db) && PrerequisiteSucceeded(db, id) && TryClaim(db, id, now).1
    ensures StartsJustified(TryClaim(db, id, now).0)
  {
    var db' := TryClaim(db, id, now).0;
    forall x | x in db'.runs && db'.runs[x].startedAt.Some? ensures PrerequisiteSucceeded(db', x) {
      assert PrerequisiteSucceeded(db, x);
    }
  }

  /**
   One row rewritten in place. It covers cancel, failQueued, heartbeat and the continuation
   mark: nothing starts, and the set of running rows does not change.
  */
  lemma RewriteSound(db: Db, id: RunId, row: Row)
    requires Sound(db) && id in db.runs && RowAdvances(db.runs[id], row)
    requires row.startedAt == db.runs[id].startedAt
    requires row.state.Running? <==> db.runs[id].state.Running?
    ensures Sound(db.(runs := db.runs[id := row])) && Advances(db, db.(runs := db.runs[id := row]))
  {
    var db' := db.(runs := db.runs[id := row]);
    assert LeasesExact(db') by {
      forall r, x ensures (r in db'.leases && db'.leases[r] == x) <==>
                          (HasState(db', x, Running) && r in db'.runs[x].resources) {
        assert (r in db.leases && db.leases[r] == x) <==>
               (HasState(db, x, Running) && r in db.runs[x].resources);
      }
    }
    assert StartsJustified(db') by {
      forall x | x in db'.runs && db'.runs[x].startedAt.Some? ensures PrerequisiteSucceeded(db', x) {
        assert PrerequisiteSucceeded(db, x);
      }
    }
  }

  lemma FinishSound(db: Db, id: RunId, state: RunState, receipt: Receipt, now: Time)
    requires Sound(db) && state.Terminal()
    ensures Sound(Finish(db, id, state, receipt, now).0) && Advances(db, Finish(db, id, state, receipt, now).0)
  {
    var db' := Finish(db, id, state, receipt, now).0;
    if HasState(db, id, Running) {
      assert LeasesExact(db') by {
        forall r, x ensures (r in db'.leases && db'.leases[r] == x) <==>
                            (HasState(db', x, Running) && r in db'.runs[x].resources) {
          assert (r in db.leases && db.leases[r] == x) <==>
                 (HasState(db, x, Running) && r in db.runs[x].resources);
        }
      }
      assert StartsJustified(db') by {
        forall x | x in db'.runs && db'.runs[x].startedAt.Some? ensures PrerequisiteSucceeded(db', x) {
          assert PrerequisiteSucceeded(db, x);
        }
      }
    }
  }

  lemma CancelSound(db: Db, id: RunId, read: RunState, error: string, now: Time)
    requires Sound(db)
    ensures Sound(CancelUpdate(db, id, read, error, now)) && Advances(db, CancelUpdate(db, id, read, error, now))
  {
    var db' := CancelUpdate(db, id, read, error, now);
    if HasState(db, id, read) && !read.Terminal() { RewriteSound(db, id, db'.runs[id]); }
  }

  /** The UPDATE takes effect exactly if the run is still in the state that was read, or was cancelled before. */
  lemma CancelTakenExactly(db: Db, id: RunId, read: RunState, error: string, now: Time)
    requires id in db.runs && !read.Terminal()
    ensures CancelTaken(CancelUpdate(db, id, read, error, now), id) <==> CancelTaken(db, id) || db.runs[id].state == read
  {
  }

  lemma FailQueuedSound(db: Db, id: RunId, error: string, now: Time)
    requires Sound(db)
    ensures Sound(FailQueued(db, id, error, now).0) && Advances(db, FailQueued(db, id, error, now).0)
  {
    var db' := FailQueued(db, id, error, now).0;
    if HasState(db, id, Queued) { RewriteSound(db, id, db'.runs[id]); }
  }

  lemma HeartbeatSound(db: Db, id: RunId, now: Time)
    requires Sound(db)
    ensures Sound(Heartbeat(db, id, now)) && Advances(db, Heartbeat(db, id, now))
  {
    var db' := Heartbeat(db, id, now);
    if HasState(db, id, Running) { RewriteSound(db, id, db'.runs[id]); }
  }

  lemma MarkContinuationSound(db: Db, id: RunId, now: Time)
    requires Sound(db)
    ensures Sound(MarkContinuation(db, id, now)) && Advances(db, MarkContinuation(db, id, now))
  {
    var db' := MarkContinuation(db, id, now);
    if id in db.runs && db.runs[id].state.Terminal() && db.runs[id].continuationAt.None? {
      RewriteSound(db, id, db'.runs[id]);
    }
  }

  lemma {:induction false} ReconcileSound(db: Db, candidates: seq<RunId>, error: string, now: Time)
    requires Sound(db)
    ensures Sound(Reconcile(db, candidates, error, now)) && Advances(db, Reconcile(db, candidates, error, now))
    decreases |candidates|
  {
    if candidates != [] {
      var before := candidates[..|candidates| - 1];
      var last := candidates[|candidates| - 1];
      ReconcileSound(db, before, error, now);
      var mid := Reconcile(db, before, error, now);
      if last in mid.runs {
        FinishSound(mid, last, OutcomeUnknown, mid.runs[last].receipt.(error := Some(error)), now);
        AdvancesTransitive(db, mid, Interrupt(mid, last, error, now).0);
      }
    }
  }
}
