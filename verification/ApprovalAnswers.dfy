/**
 What each call of the approval service answers, told by the promises, journal events and decision
 rows it leaves: a re-issued request, one from before boot, one that is new, and a policy re-check.
*/
module ApprovalAnswers {
  import opened Prelude
  import opened Json
  import opened JsonObjects
  import opened Approvals
  import ReviewDigest

  // ---- latest decisions ------------------------------------------------------------------------------

  /** Row `k` is the newest of its id. */
  predicate NewestRowAt(rows: seq<Row>, id: string, k: nat) {
    k < |rows| && rows[k].id == id && forall j :: k < j < |rows| ==> rows[j].id != id
  }

  /** Event `k` is the newest approval/resolved of its id. */
  predicate NewestEventAt(journal: seq<JournalEvent>, id: string, k: nat) {
    && k < |journal| && journal[k].Resolved? && journal[k].id == id
    && forall j :: k < j < |journal| ==> !(journal[j].Resolved? && journal[j].id == id)
  }

  lemma {:induction false} LatestRowMeans(rows: seq<Row>, id: string)
    ensures LatestRow(rows, id).Some? <==> exists k: nat :: NewestRowAt(rows, id, k)
    ensures forall k: nat :: NewestRowAt(rows, id, k) ==> LatestRow(rows, id) == Some(rows[k])
  {
    if rows != [] {
      var n: nat := |rows| - 1;
      LatestRowMeans(rows[..n], id);
      if rows[n].id == id {
        assert NewestRowAt(rows, id, n);
      } else {
        forall k: nat ensures NewestRowAt(rows, id, k) <==> NewestRowAt(rows[..n], id, k) {}
      }
    }
  }

  lemma {:induction false} LatestEventMeans(journal: seq<JournalEvent>, id: string)
    ensures LatestResolved(journal, id).None? <==> forall k :: 0 <= k < |journal| ==> !(journal[k].Resolved? && journal[k].id == id)
    ensures forall k: nat :: NewestEventAt(journal, id, k) <==> LatestResolved(journal, id) == Some(k)
  {
    if journal != [] {
      var n := |journal| - 1;
      LatestEventMeans(journal[..n], id);
      forall k: nat ensures NewestEventAt(journal, id, k) <==> LatestResolved(journal, id) == Some(k) {
        if k < n && !(journal[n].Resolved? && journal[n].id == id) {
          assert NewestEventAt(journal[..n], id, k) <==> LatestResolved(journal[..n], id) == Some(k);
        }
      }
    }
  }

  // ---- settling --------------------------------------------------------------------------------------

  /** The pending request `id` ends with this row, event and answer, and nothing else changes for others. */
  predicate Ends(s: Service, t: Service, id: string, row: Row, approved: bool, now: int)
    requires id in s.pending
  {
    var entry := s.pending[id];
    && t.pending == s.pending - {id}
    && t.journal == s.journal + [Resolved(row.id, row.status, row.decider)]
    && t.decisions == s.decisions + [row]
    && id in t.recovered && t.recoveries == s.recoveries
    && (entry.promise < |s.promises| ==>
          t.promises == s.promises[entry.promise := Settled(id, entry.expiresAt, approved, |s.decisions|, now)])
  }

  /**
   An operator's answer: in time it settles the promise with exactly that answer, under its own row
   and event; late, the request times out; for anything that is not pending nothing changes.
  */
  lemma ResolveDecides(s: Service, id: string, approved: bool, decider: Option<string>, now: int)
    ensures var (t, settled) := ResolveEntry(s, id, approved, decider, now);
            && (settled <==> id in s.pending && now < s.pending[id].expiresAt)
            && (id !in s.pending ==> t == s)
            && (settled ==> Ends(s, t, id, Row(id, if approved then Approved else Denied, Decider(decider), true), approved, now))
            && (id in s.pending && !settled ==> Ends(s, t, id, Row(id, Timeout, "system:timeout", true), false, now))
  {
  }

  /** A timer that fires ends the request as timed out whatever the clock says, and an inspection only when it is late. */
  lemma TimeoutDecides(s: Service, id: string, now: int)
    ensures id in s.pending ==> Ends(s, Expire(s, id, now), id, Row(id, Timeout, "system:timeout", true), false, now)
    ensures id !in s.pending ==> Expire(s, id, now) == s
    ensures var (t, seen) := Inspect(s, id, now);
            && (seen == if id in s.pending && now < s.pending[id].expiresAt then Some(s.pending[id]) else None)
            && (id !in s.pending || seen.Some? ==> t == s)
            && (id in s.pending && seen.None? ==> Ends(s, t, id, Row(id, Timeout, "system:timeout", true), false, now))
  {
    SystemTimeout();
  }

  // ---- requesting ------------------------------------------------------------------------------------

  /** A re-issue of a pending request: same promise if it is the same, refused if its content differs. */
  lemma ReissueDecides(s: Service, r: Request, generated: string, auto: bool, bootAt: int, timeoutMs: int, now: int)
    requires r.id.Some? && r.id.value in s.pending
    requires ValidValue(s.pending[r.id.value].payload) && ValidValue(r.payload)
    ensures var id := r.id.value; var e := s.pending[id];
            var same := e.sessionId == r.sessionId && e.kind == r.kind && SameValue(e.payload, r.payload);
            var (t, reply) := Ask(s, r, generated, auto, bootAt, timeoutMs, now);
            && (same ==> reply == Wait(e.promise))
            && (same && now < e.expiresAt ==> t == s)
            && (same && now >= e.expiresAt ==> Ends(s, t, id, Row(id, Timeout, "system:timeout", true), false, now))
            && (!same ==> reply == Answer(false) && t == s.(journal := s.journal + [DuplicateMismatch(id)]))
  {
    var id := r.id.value;
    ReviewDigest.DigestDecides(s.pending[id].payload, r.payload);
    TimeoutDecides(s, id, now);
  }

  /** The request is answered by live policy, or becomes pending under a new promise. */
  predicate AsksAnew(s: Service, t: Service, reply: Reply, r: Request, id: string, auto: bool, expiresAt: int) {
    if auto then
      && reply == Answer(true)
      && t == s.(journal := s.journal + [AutoApproved(id)],
                 decisions := s.decisions + [Row(id, Approved, "policy:auto-approve", false)])
    else
      && reply == Wait(|s.promises|)
      && t == s.(journal := s.journal + [Requested(id)],
                 pending := s.pending[id := Entry(r.sessionId, r.kind, r.payload, |s.promises|, expiresAt)],
                 order := s.order + [id],
                 promises := s.promises + [Open(id, expiresAt)])
  }

  /**
   A request whose id is not pending. Within two minutes of boot, and once per id, an earlier decision
   answers it: a scoped reviewer's is refused, any other resolution is repeated. Everything else is
   asked anew.
  */
  lemma NewRequestDecides(s: Service, r: Request, generated: string, auto: bool, bootAt: int, timeoutMs: int, now: int)
    requires r.id.Some? ==> r.id.value !in s.pending
    ensures var id := if r.id.Some? then r.id.value else generated;
            var (t, reply) := Ask(s, r, generated, auto, bootAt, timeoutMs, now);
            var again := r.id.Some? && id !in s.recovered && now - bootAt <= 120_000;
            var reviewed := exists k: nat :: NewestRowAt(s.decisions, id, k) && "overseer-reviewed:" <= s.decisions[k].decider;
            && (again && reviewed ==>
                  && reply == Answer(false)
                  && t == s.(recovered := s.recovered + {id}, recoveries := s.recoveries + [Recovery(id, now, None)],
                             journal := s.journal + [ReviewRecoveryRefused(id)]))
            && (again && !reviewed ==> forall e: nat :: NewestEventAt(s.journal, id, e) ==>
                  && reply == Answer(s.journal[e].status == Approved)
                  && t == s.(recovered := s.recovered + {id}, recoveries := s.recoveries + [Recovery(id, now, Some(e))]))
            && (!again || (!reviewed && forall e: nat :: !NewestEventAt(s.journal, id, e)) ==>
                  AsksAnew(s, t, reply, r, id, auto, now + timeoutMs))
  {
    var id := if r.id.Some? then r.id.value else generated;
    LatestRowMeans(s.decisions, id);
    LatestEventMeans(s.journal, id);
    if LatestResolved(s.journal, id).Some? { assert NewestEventAt(s.journal, id, LatestResolved(s.journal, id).value); }
  }

  // ---- re-checking against a new policy ----------------------------------------------------------------

  /** The request is pending, of a session in question, and the policy now allows it. */
  predicate Affected(s: Service, id: string, sessions: Option<set<string>>, says: string -> bool) {
    && id in s.pending
    && (sessions.None? || s.pending[id].sessionId in sessions.value)
    && says(id)
  }

  /** Its audit event, directly followed by the resolution: approved in time, timed out if late. */
  predicate Audited(s: Service, t: Service, id: string, name: string, now: int)
    requires id in s.pending
  {
    exists k :: |s.journal| <= k < |t.journal| - 1 && t.journal[k] == ReEvaluated(id)
      && t.journal[k + 1] == (if now < s.pending[id].expiresAt then Resolved(id, Approved, name)
                              else Resolved(id, Timeout, "system:timeout"))
  }

  /** After a re-check the affected requests are gone, each audited, and the others are as they were. */
  lemma {:induction false} RecheckDecides(s: Service, ids: seq<string>, sessions: Option<set<string>>, reason: string,
                                          says: string -> bool, now: int)
    requires forall i, j :: 0 <= i < j < |ids| ==> ids[i] != ids[j]
    ensures var t := Recheck(s, ids, sessions, reason, says, now).0;
            && s.journal <= t.journal
            && (forall id :: id in t.pending <==> id in s.pending && !(id in ids && Affected(s, id, sessions, says)))
            && (forall id :: id in t.pending ==> t.pending[id] == s.pending[id])
            && (forall id :: id in ids && Affected(s, id, sessions, says) ==>
                  Audited(s, t, id, Decider(Some("policy:" + reason)), now))
    decreases |ids|
  {
    if ids != [] {
      var id, rest := ids[0], ids[1..];
      assert forall x :: x in ids <==> x == id || x in rest;
      assert id !in rest;
      if Affected(s, id, sessions, says) {
        var mid := Released(s, id, reason, now);
        var t := Recheck(mid, rest, sessions, reason, says, now).0;
        RecheckDecides(mid, rest, sessions, reason, says, now);
        AuditsFirst(s, t, id, reason, now);
        AuditsRest(s, mid, t, rest, sessions, reason, says, now);
      } else {
        RecheckDecides(s, rest, sessions, reason, says, now);
      }
    }
  }

  /** One affected request, noted and then finished. */
  function Released(s: Service, id: string, reason: string, now: int): (t: Service)
    requires id in s.pending
    ensures t.pending == s.pending - {id}
    ensures t.journal == s.journal + [ReEvaluated(id), if now < s.pending[id].expiresAt
                                                       then Resolved(id, Approved, Decider(Some("policy:" + reason)))
                                                       else Resolved(id, Timeout, "system:timeout")]
  {
    FinishEntry(s.(journal := s.journal + [ReEvaluated(id)]), id, true, Approved, Some("policy:" + reason), now).0
  }

  lemma AuditsFirst(s: Service, t: Service, id: string, reason: string, now: int)
    requires id in s.pending && Released(s, id, reason, now).journal <= t.journal
    ensures s.journal <= t.journal && Audited(s, t, id, Decider(Some("policy:" + reason)), now)
  {
    var k, mid := |s.journal|, Released(s, id, reason, now);
    assert t.journal[k] == mid.journal[k] && t.journal[k + 1] == mid.journal[k + 1];
  }

  lemma AuditsRest(s: Service, mid: Service, t: Service, rest: seq<string>, sessions: Option<set<string>>, reason: string,
                   says: string -> bool, now: int)
    requires |s.journal| <= |mid.journal| && forall x :: x in rest ==> (x in s.pending <==> x in mid.pending)
    requires forall x :: x in mid.pending ==> x in s.pending && mid.pending[x] == s.pending[x]
    requires forall x :: x in rest && Affected(mid, x, sessions, says) ==> Audited(mid, t, x, Decider(Some("policy:" + reason)), now)
    ensures forall x :: x in rest && Affected(s, x, sessions, says) ==> Audited(s, t, x, Decider(Some("policy:" + reason)), now)
  {
    forall x | x in rest && Affected(s, x, sessions, says) ensures Audited(s, t, x, Decider(Some("policy:" + reason)), now) {
      assert Affected(mid, x, sessions, says);
    }
  }

  /** The affected requests of a list that are still in time. */
  function InTime(s: Service, ids: seq<string>, sessions: Option<set<string>>, says: string -> bool, now: int): set<string> {
    set id | id in ids && Affected(s, id, sessions, says) && now < s.pending[id].expiresAt
  }

  lemma InTimeFirst(s: Service, t: Service, ids: seq<string>, sessions: Option<set<string>>, says: string -> bool, now: int)
    requires ids != [] && ids[0] !in ids[1..]
    requires t == s || (Affected(s, ids[0], sessions, says) && t.pending == s.pending - {ids[0]})
    ensures var others := InTime(t, ids[1..], sessions, says, now);
            && ids[0] !in others
            && InTime(s, ids, sessions, says, now) ==
               if Affected(s, ids[0], sessions, says) && now < s.pending[ids[0]].expiresAt then others + {ids[0]} else others
  {
    assert forall x :: x in ids <==> x == ids[0] || x in ids[1..];
  }

  lemma RecheckSplits(s: Service, ids: seq<string>, sessions: Option<set<string>>, reason: string, says: string -> bool, now: int)
    requires ids != []
    ensures Recheck(s, ids, sessions, reason, says, now).1 ==
            if Affected(s, ids[0], sessions, says) then
              Recheck(Released(s, ids[0], reason, now), ids[1..], sessions, reason, says, now).1
              + if now < s.pending[ids[0]].expiresAt then 1 else 0
            else Recheck(s, ids[1..], sessions, reason, says, now).1
  {
  }

  lemma {:induction false} CountsInTime(s: Service, ids: seq<string>, sessions: Option<set<string>>, reason: string,
                                        says: string -> bool, now: int)
    requires forall i, j :: 0 <= i < j < |ids| ==> ids[i] != ids[j]
    ensures Recheck(s, ids, sessions, reason, says, now).1 == |InTime(s, ids, sessions, says, now)|
    decreases |ids|
  {
    if ids == [] {
      assert InTime(s, ids, sessions, says, now) == {};
    } else {
      RecheckSplits(s, ids, sessions, reason, says, now);
      var t := if Affected(s, ids[0], sessions, says) then Released(s, ids[0], reason, now) else s;
      InTimeFirst(s, t, ids, sessions, says, now);
      hide Recheck, Released, InTime;
      CountsInTime(t, ids[1..], sessions, reason, says, now);
    }
  }

  /** What a re-check reports is how many affected requests were still in time. */
  lemma RecheckCounts(s: Service, ids: seq<string>, sessions: Option<set<string>>, reason: string, says: string -> bool, now: int)
    requires forall i, j :: 0 <= i < j < |ids| ==> ids[i] != ids[j]
    ensures Recheck(s, ids, sessions, reason, says, now).1
            == |set id | id in ids && Affected(s, id, sessions, says) && now < s.pending[id].expiresAt|
  {
    CountsInTime(s, ids, sessions, reason, says, now);
    assert InTime(s, ids, sessions, says, now)
           == set id | id in ids && Affected(s, id, sessions, says) && now < s.pending[id].expiresAt;
  }
}
