/**
 The approval service of one hub process over a durable journal and decision table. `now` is the wall
 clock of the call, which may jump; what the live policy says is an input of the call.
*/
module Approvals {
  import opened Prelude
  import opened Json
  import ReviewDigest
  import Text

  const DEFAULT_APPROVAL_TIMEOUT_MS := 3_600_000
  const RESOLVED_RECOVERY_WINDOW_MS := 120_000
  const REVIEWER_PREFIX := "overseer-reviewed:"

  datatype Status = Approved | Denied | Timeout

  /** A pending request; its promise is a number into the promises ever made. */
  datatype Entry = Entry(sessionId: string, kind: string, payload: Option<Json>, promise: nat, expiresAt: int)

  datatype JournalEvent =
    | Requested(id: string)
    | Resolved(id: string, status: Status, decider: string)
    | AutoApproved(id: string)
    | DuplicateMismatch(id: string)
    | ReviewRecoveryRefused(id: string)
    | ReEvaluated(id: string)

  /** A decision row; resolution tells rows written with an approval/resolved event from auto-approvals. */
  datatype Row = Row(id: string, status: Status, decider: string, resolution: bool)

  datatype Promise =
    | Open(id: string, expiresAt: int)
    | Settled(id: string, expiresAt: int, approved: bool, row: nat, at: int)

  /** A re-issue answered from before boot: by the event at this journal position, or refused. */
  datatype Recovery = Recovery(id: string, at: int, event: Option<nat>)

  datatype Service = Service(
    pending: map<string, Entry>,
    order: seq<string>,          // the pending ids in insertion order
    recovered: set<string>,
    journal: seq<JournalEvent>,
    decisions: seq<Row>,
    promises: seq<Promise>,
    recoveries: seq<Recovery>)

  /** What a caller gets: an already resolved promise, or a pending one. */
  datatype Reply = Answer(approved: bool) | Wait(promise: nat)

  datatype Request = Request(sessionId: string, kind: string, payload: Option<Json>, id: Option<string>)

  // ---- durable lookups ---------------------------------------------------------------------------------

  /** Position of the latest approval/resolved event of an id. */
  function LatestResolved(journal: seq<JournalEvent>, id: string): (r: Option<nat>)
    ensures r.Some? ==> r.value < |journal| && journal[r.value].Resolved? && journal[r.value].id == id
  {
    if journal == [] then None
    else
      var n := |journal| - 1;
      if journal[n].Resolved? && journal[n].id == id then Some(n) else LatestResolved(journal[..n], id)
  }

  function LatestRow(rows: seq<Row>, id: string): (r: Option<Row>)
    ensures r.Some? ==> r.value in rows && r.value.id == id
  {
    if rows == [] then None
    else
      var n := |rows| - 1;
      if rows[n].id == id then Some(rows[n]) else LatestRow(rows[..n], id)
  }

  predicate Reviewer(decider: string) { REVIEWER_PREFIX <= decider }

  // ---- settling ------------------------------------------------------------------------------------------

  function Without(ids: seq<string>, id: string): seq<string> {
    if ids == [] then [] else if ids[0] == id then ids[1..] else [ids[0]] + Without(ids[1..], id)
  }

  function Decider(given: Option<string>): string {
    var trimmed := if given.Some? then Text.Trim(given.value) else [];
    if trimmed == [] then "operator:unspecified" else trimmed
  }

  /** Journal event, decision row, removal and settlement of one pending id. */
  function Settle(s: Service, id: string, approved: bool, status: Status, decider: string, now: int): Service
    requires id in s.pending
  {
    var e := s.pending[id];
    s.(pending := s.pending - {id},
       order := Without(s.order, id),
       recovered := s.recovered + {id},
       journal := s.journal + [Resolved(id, status, decider)],
       decisions := s.decisions + [Row(id, status, decider, true)],
       promises := if e.promise < |s.promises|
                   then s.promises[e.promise := Settled(id, e.expiresAt, approved, |s.decisions|, now)] else s.promises)
  }

  /** finish: an answer at or after the deadline is a timeout instead; only this call settling it returns true. */
  function FinishEntry(s: Service, id: string, approved: bool, status: Status, decider: Option<string>, now: int): (Service, bool) {
    if id !in s.pending then (s, false)
    else if status != Timeout && now >= s.pending[id].expiresAt then
      (Settle(s, id, false, Timeout, "system:timeout", now), false)
    else (Settle(s, id, approved, status, Decider(decider), now), true)
  }

  function ResolveEntry(s: Service, id: string, approved: bool, decider: Option<string>, now: int): (Service, bool) {
    FinishEntry(s, id, approved, if approved then Approved else Denied, decider, now)
  }

  function Expire(s: Service, id: string, now: int): Service {
    FinishEntry(s, id, false, Timeout, Some("system:timeout"), now).0
  }

  /** inspectPending enforces the deadline even if the timer has not fired. */
  function Inspect(s: Service, id: string, now: int): (Service, Option<Entry>) {
    if id !in s.pending then (s, None)
    else if now >= s.pending[id].expiresAt then (Expire(s, id, now), None)
    else (s, Some(s.pending[id]))
  }

  /** recheckPending over a snapshot of pending ids. */
  function Recheck(s: Service, ids: seq<string>, sessions: Option<set<string>>, reason: string,
                   says: string -> bool, now: int): (Service, nat)
    decreases |ids|
  {
    if ids == [] then (s, 0)
    else
      var id := ids[0];
      if id in s.pending && (sessions.Some? ==> s.pending[id].sessionId in sessions.value) && says(id) then
        var (t, done) := FinishEntry(s.(journal := s.journal + [ReEvaluated(id)]), id, true, Approved, Some("policy:" + reason), now);
        var (u, released) := Recheck(t, ids[1..], sessions, reason, says, now);
        (u, released + if done then 1 else 0)
      else Recheck(s, ids[1..], sessions, reason, says, now)
  }

  // ---- requesting -------------------------------------------------------------------------------------------

  predicate Matches(e: Entry, r: Request) {
    && e.sessionId == r.sessionId && e.kind == r.kind
    && ReviewDigest.DigestText(e.payload) == ReviewDigest.DigestText(r.payload)
  }

  /** The durable answer a re-issued id may still get. */
  function Recoverable(s: Service, id: string, bootAt: int, now: int): (r: Option<Recovery>)
    ensures r.Some? ==> r.value.id == id && r.value.at == now && id !in s.recovered && now - bootAt <= RESOLVED_RECOVERY_WINDOW_MS
  {
    if id in s.recovered || now - bootAt > RESOLVED_RECOVERY_WINDOW_MS then None
    else
      var row := LatestRow(s.decisions, id);
      if row.Some? && Reviewer(row.value.decider) then Some(Recovery(id, now, None))
      else
        var event := LatestResolved(s.journal, id);
        if event.Some? then Some(Recovery(id, now, event)) else None
  }

  function Recover(s: Service, r: Recovery): (Service, Reply)
    requires r.event.Some? ==> r.event.value < |s.journal| && s.journal[r.event.value].Resolved?
  {
    var t := s.(recovered := s.recovered + {r.id}, recoveries := s.recoveries + [r]);
    if r.event.None? then (t.(journal := t.journal + [ReviewRecoveryRefused(r.id)]), Answer(false))
    else (t, Answer(s.journal[r.event.value].status == Approved))
  }

  /** Live policy, or a pending entry under the id. */
  function AskOrAllow(s: Service, r: Request, id: string, auto: bool, timeoutMs: int, now: int): (Service, Reply) {
    if auto then
      (s.(journal := s.journal + [AutoApproved(id)],
          decisions := s.decisions + [Row(id, Approved, "policy:auto-approve", false)]),
       Answer(true))
    else
      var p := |s.promises|;
      (s.(journal := s.journal + [Requested(id)],
          pending := s.pending[id := Entry(r.sessionId, r.kind, r.payload, p, now + timeoutMs)],
          order := s.order + [id],
          promises := s.promises + [Open(id, now + timeoutMs)]),
       Wait(p))
  }

  /** generated is the id crypto.randomUUID gives when the caller supplies none. */
  function Ask(s: Service, r: Request, generated: string, auto: bool, bootAt: int, timeoutMs: int, now: int): (Service, Reply) {
    match r.id
    case None => AskOrAllow(s, r, generated, auto, timeoutMs, now)
    case Some(id) =>
      if id in s.pending then
        if !Matches(s.pending[id], r) then (s.(journal := s.journal + [DuplicateMismatch(id)]), Answer(false))
        else (Inspect(s, id, now).0, Wait(s.pending[id].promise))
      else
        match Recoverable(s, id, bootAt, now)
        case Some(recovery) => Recover(s, recovery)
        case None => AskOrAllow(s, r, id, auto, timeoutMs, now)
  }

  // ---- the service object ---------------------------------------------------------------------------------------

  /** A JavaScript number given as an option. */
  datatype Number = Finite(value: real) | NotFinite

  function TimeoutMs(requested: Option<Number>): int {
    match requested
    case Some(Finite(v)) => if v >= 1000.0 then v.Floor else DEFAULT_APPROVAL_TIMEOUT_MS
    case _ => DEFAULT_APPROVAL_TIMEOUT_MS
  }

  function Boot(journal: seq<JournalEvent>, decisions: seq<Row>): Service {
    Service(map[], [], {}, journal, decisions, [], [])
  }

  class ApprovalService {
    const bootAt: int
    const timeoutMs: int
    var pendingMap: map<string, Entry>
    var order: seq<string>
    var recoveredIds: set<string>
    var journal: seq<JournalEvent>
    var decisions: seq<Row>
    /** Promises handed out, and for the proofs the answers taken from before boot. */
    var promises: seq<Promise>
    ghost var recoveries: seq<Recovery>

    ghost function Now(): Service
      reads this
    {
      Service(pendingMap, order, recoveredIds, journal, decisions, promises, recoveries)
    }

    constructor (journal: seq<JournalEvent>, decisions: seq<Row>, requested: Option<Number>, now: int)
      ensures Now() == Boot(journal, decisions) && bootAt == now && timeoutMs == TimeoutMs(requested)
      ensures timeoutMs == (if requested.Some? && requested.value.Finite? && requested.value.value >= 1000.0
                            then requested.value.value.Floor else 3_600_000)
      ensures timeoutMs >= 1000
    {
      pendingMap, order, recoveredIds, promises, recoveries := map[], [], {}, [], [];
      this.journal, this.decisions, bootAt, timeoutMs := journal, decisions, now, TimeoutMs(requested);
    }

    method Finish(id: string, approved: bool, status: Status, decider: Option<string>, now: int) returns (settled: bool)
      modifies this
      ensures (Now(), settled) == FinishEntry(old(Now()), id, approved, status, decider, now)
      ensures settled <==> id in old(pendingMap) && (status == Timeout || now < old(pendingMap)[id].expiresAt)
      ensures id !in old(pendingMap) ==> Now() == old(Now())
      ensures id in old(pendingMap) ==>
                var entry := old(pendingMap)[id];
                var given := if settled then status else Timeout;
                var name := if settled then Decider(decider) else "system:timeout";
                && pendingMap == old(pendingMap) - {id} && recoveredIds == old(recoveredIds) + {id}
                && journal == old(journal) + [Resolved(id, given, name)]
                && decisions == old(decisions) + [Row(id, given, name, true)]
                && recoveries == old(recoveries)
                && (entry.promise < |old(promises)| ==>
                      promises == old(promises)[entry.promise :=
                        Settled(id, entry.expiresAt, settled && approved, |old(decisions)|, now)])
      decreases status != Timeout
    {
      if id !in pendingMap { return false; }
      var entry := pendingMap[id];
      if status != Timeout && now >= entry.expiresAt {
        var late := Finish(id, false, Timeout, Some("system:timeout"), now);
        SystemTimeout();
        return false;
      }
      var name := Decider(decider);
      journal := journal + [Resolved(id, status, name)];
      if entry.promise < |promises| {
        promises := promises[entry.promise := Settled(id, entry.expiresAt, approved, |decisions|, now)];
      }
      decisions := decisions + [Row(id, status, name, true)];
      pendingMap := pendingMap - {id};
      order := Without(order, id);
      recoveredIds := recoveredIds + {id};
      settled := true;
    }

    method Resolve(id: string, approved: bool, decider: Option<string>, now: int) returns (settled: bool)
      modifies this
      ensures (Now(), settled) == ResolveEntry(old(Now()), id, approved, decider, now)
      ensures settled <==> id in old(pendingMap) && now < old(pendingMap)[id].expiresAt
      ensures id !in old(pendingMap) ==> Now() == old(Now())
      ensures id in old(pendingMap) ==>
                var entry := old(pendingMap)[id];
                var given := if !settled then Timeout else if approved then Approved else Denied;
                var name := if settled then Decider(decider) else "system:timeout";
                && pendingMap == old(pendingMap) - {id} && recoveredIds == old(recoveredIds) + {id}
                && journal == old(journal) + [Resolved(id, given, name)]
                && decisions == old(decisions) + [Row(id, given, name, true)]
                && recoveries == old(recoveries)
                && (entry.promise < |old(promises)| ==>
                      promises == old(promises)[entry.promise :=
                        Settled(id, entry.expiresAt, settled && approved, |old(decisions)|, now)])
    {
      settled := Finish(id, approved, if approved then Approved else Denied, decider, now);
    }

    method InspectPending(id: string, now: int) returns (entry: Option<Entry>)
      modifies this
      ensures (Now(), entry) == Inspect(old(Now()), id, now)
      ensures entry == if id in old(pendingMap) && now < old(pendingMap)[id].expiresAt then Some(old(pendingMap)[id]) else None
      ensures id !in old(pendingMap) || entry.Some? ==> Now() == old(Now())
      ensures id in old(pendingMap) && entry.None? ==>
                var late := old(pendingMap)[id];
                && pendingMap == old(pendingMap) - {id}
                && journal == old(journal) + [Resolved(id, Timeout, "system:timeout")]
                && decisions == old(decisions) + [Row(id, Timeout, "system:timeout", true)]
                && (late.promise < |old(promises)| ==>
                      promises == old(promises)[late.promise := Settled(id, late.expiresAt, false, |old(decisions)|, now)])
    {
      if id !in pendingMap { return None; }
      if now >= pendingMap[id].expiresAt {
        var late := Finish(id, false, Timeout, Some("system:timeout"), now);
        SystemTimeout();
        return None;
      }
      entry := Some(pendingMap[id]);
    }

    method RecheckPending(sessions: Option<set<string>>, reason: string, policy: Option<string -> bool>, now: int) returns (released: nat)
      modifies this
      ensures (Now(), released) ==
              if policy.None? then (old(Now()), 0) else Recheck(old(Now()), old(order), sessions, reason, policy.value, now)
    {
      if policy.None? { return 0; }
      var snapshot := order;
      ghost var start := Now();
      released := 0;
      var i := 0;
      while i < |snapshot|
        invariant 0 <= i <= |snapshot|
        invariant var (u, n) := Recheck(Now(), snapshot[i..], sessions, reason, policy.value, now);
                  Recheck(start, snapshot, sessions, reason, policy.value, now) == (u, n + released)
      {
        var id := snapshot[i];
        assert snapshot[i..][0] == id && snapshot[i..][1..] == snapshot[i + 1..];
        i := i + 1;
        if id !in pendingMap || (sessions.Some? && pendingMap[id].sessionId !in sessions.value) || !policy.value(id) { continue; }
        journal := journal + [ReEvaluated(id)];
        var done := Finish(id, true, Approved, Some("policy:" + reason), now);
        if done { released := released + 1; }
      }
    }

    method Request(r: Request, generated: string, auto: bool, now: int) returns (reply: Reply)
      modifies this
      ensures (Now(), reply) == Ask(old(Now()), r, generated, auto, bootAt, timeoutMs, now)
    {
      var id := if r.id.Some? then r.id.value else generated;
      if r.id.Some? {
        if id in pendingMap {
          var existing := pendingMap[id];
          if !Matches(existing, r) {
            journal := journal + [DuplicateMismatch(id)];
            return Answer(false);
          }
          var seen := InspectPending(id, now);
          return Wait(existing.promise);
        }
        if id !in recoveredIds && now - bootAt <= RESOLVED_RECOVERY_WINDOW_MS {
          var decision := LatestRow(decisions, id);
          if decision.Some? && Reviewer(decision.value.decider) {
            recoveredIds := recoveredIds + {id};
            recoveries := recoveries + [Recovery(id, now, None)];
            journal := journal + [ReviewRecoveryRefused(id)];
            return Answer(false);
          }
          var resolved := LatestResolved(journal, id);
          if resolved.Some? {
            recoveredIds := recoveredIds + {id};
            recoveries := recoveries + [Recovery(id, now, resolved)];
            return Answer(journal[resolved.value].status == Approved);
          }
        }
      }
      if auto {
        journal := journal + [AutoApproved(id)];
        decisions := decisions + [Row(id, Approved, "policy:auto-approve", false)];
        return Answer(true);
      }
      journal := journal + [Requested(id)];
      var promise := |promises|;
      promises := promises + [Open(id, now + timeoutMs)];
      pendingMap := pendingMap[id := Entry(r.sessionId, r.kind, r.payload, promise, now + timeoutMs)];
      order := order + [id];
      reply := Wait(promise);
    }
  }

  /** Who a decision is recorded under: the given name without surrounding blanks, unless nothing is left. */
  lemma DeciderMeans(given: string) returns (front: nat, back: nat)
    ensures front <= back <= |given|
    ensures forall i :: 0 <= i < front || back <= i < |given| ==> Text.IsSpace(given[i])
    ensures front < back ==> !Text.IsSpace(given[front]) && !Text.IsSpace(given[back - 1])
    ensures Decider(Some(given)) == if front < back then given[front..back] else "operator:unspecified"
    ensures Decider(None) == "operator:unspecified"
  {
    front, back := Text.TrimMeans(given);
  }

  lemma SystemTimeout()
    ensures Decider(Some("system:timeout")) == "system:timeout"
  {
    var t := "system:timeout";
    assert t[0] == 's' && t[|t| - 1] == 't';
  }
}
