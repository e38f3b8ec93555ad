/** Whole runs of one approval-service process, and what its durable rows promise the next one. */
module ApprovalSafety {
  import opened Prelude
  import opened Json
  import opened JsonObjects
  import opened Approvals
  import ReviewDigest

  // ---- runs ------------------------------------------------------------------------------------------

  datatype Op =
    | AskOp(r: Request, generated: string, auto: bool, now: int)
    | ResolveOp(id: string, approved: bool, decider: Option<string>, now: int)
    | TimerOp(id: string, now: int)
    | InspectOp(id: string, now: int)
    | RecheckOp(ids: seq<string>, sessions: Option<set<string>>, reason: string, says: string -> bool, now: int)

  /** bootAt and timeoutMs of the process. */
  datatype Config = Config(bootAt: int, timeoutMs: int)

  function Step(s: Service, op: Op, c: Config): Service {
    match op
    case AskOp(r, generated, auto, now) => Ask(s, r, generated, auto, c.bootAt, c.timeoutMs, now).0
    case ResolveOp(id, approved, decider, now) => ResolveEntry(s, id, approved, decider, now).0
    case TimerOp(id, now) => Expire(s, id, now)
    case InspectOp(id, now) => Inspect(s, id, now).0
    case RecheckOp(ids, sessions, reason, says, now) => Recheck(s, ids, sessions, reason, says, now).0
  }

  /** A generated id is a new one: not pending. Everything else may happen in any order. */
  predicate Allowed(s: Service, op: Op) {
    op.AskOp? && op.r.id.None? ==> op.generated !in s.pending
  }

  function Run(s: Service, ops: seq<Op>, c: Config): Service
    decreases |ops|
  {
    if ops == [] then s else Run(Step(s, ops[0], c), ops[1..], c)
  }

  predicate AllowedRun(s: Service, ops: seq<Op>, c: Config)
    decreases |ops|
  {
    ops == [] || (Allowed(s, ops[0]) && AllowedRun(Step(s, ops[0], c), ops[1..], c))
  }

  // ---- the elementary changes ---------------------------------------------------------------------------

  /** Every operation is a sequence of these. */
  datatype Change =
    | Opens(id: string, entry: Entry)
    | Settles(id: string, approved: bool, status: Status, decider: string, now: int)
    | Notes(event: JournalEvent)
    | Allows(id: string)
    | Recovers(recovery: Recovery)

  function Apply(s: Service, d: Change): Service
    requires d.Settles? ==> d.id in s.pending
  {
    match d
    case Opens(id, e) =>
      s.(journal := s.journal + [Requested(id)], pending := s.pending[id := e], order := s.order + [id],
         promises := s.promises + [Open(id, e.expiresAt)])
    case Settles(id, approved, status, decider, now) => Settle(s, id, approved, status, decider, now)
    case Notes(event) => s.(journal := s.journal + [event])
    case Allows(id) =>
      s.(journal := s.journal + [AutoApproved(id)], decisions := s.decisions + [Row(id, Approved, "policy:auto-approve", false)])
    case Recovers(r) => s.(recovered := s.recovered + {r.id}, recoveries := s.recoveries + [r])
  }

  /** When a change is one the service makes. */
  ghost predicate Justified(s: Service, d: Change, c: Config) {
    match d
    case Opens(id, e) => id !in s.pending && e.promise == |s.promises|
    case Settles(id, approved, status, decider, now) =>
      id in s.pending && (approved <==> status == Approved) && (approved ==> now < s.pending[id].expiresAt)
    case Notes(event) => !event.Requested? && !event.Resolved? && !event.AutoApproved?
    case Allows(id) => true
    case Recovers(r) =>
      && r.id !in s.recovered && r.at - c.bootAt <= RESOLVED_RECOVERY_WINDOW_MS
      && r.event == (match LatestResolved(s.journal, r.id) { case None => None case Some(i) => if r.event.None? then None else Some(i) })
  }

  ghost predicate Chain(s: Service, ds: seq<Change>, c: Config)
    decreases |ds|
  {
    ds == [] || (Justified(s, ds[0], c) && Chain(Apply(s, ds[0]), ds[1..], c))
  }

  ghost function ApplyAll(s: Service, ds: seq<Change>, c: Config): Service
    requires Chain(s, ds, c)
    decreases |ds|
  {
    if ds == [] then s else ApplyAll(Apply(s, ds[0]), ds[1..], c)
  }

  lemma One(s: Service, d: Change, c: Config)
    requires Justified(s, d, c)
    ensures Chain(s, [d], c) && ApplyAll(s, [d], c) == Apply(s, d)
  {
    assert [d][1..] == [];
  }

  lemma Cons(s: Service, d: Change, ds: seq<Change>, c: Config)
    requires Justified(s, d, c) && Chain(Apply(s, d), ds, c)
    ensures Chain(s, [d] + ds, c) && ApplyAll(s, [d] + ds, c) == ApplyAll(Apply(s, d), ds, c)
  {
    assert ([d] + ds)[1..] == ds;
  }

  lemma FinishChain(s: Service, id: string, approved: bool, status: Status, decider: Option<string>, now: int, c: Config)
    returns (ds: seq<Change>)
    requires approved <==> status == Approved
    ensures Chain(s, ds, c) && ApplyAll(s, ds, c) == FinishEntry(s, id, approved, status, decider, now).0
  {
    ds := [];
    if id in s.pending {
      if status != Timeout && now >= s.pending[id].expiresAt {
        ds := [Settles(id, false, Timeout, "system:timeout", now)];
      } else {
        ds := [Settles(id, approved, status, Decider(decider), now)];
      }
      One(s, ds[0], c);
    }
  }

  lemma {:induction false} RecheckChain(s: Service, ids: seq<string>, sessions: Option<set<string>>, reason: string,
                                        says: string -> bool, now: int, c: Config)
    returns (ds: seq<Change>)
    ensures Chain(s, ds, c) && ApplyAll(s, ds, c) == Recheck(s, ids, sessions, reason, says, now).0
    decreases |ids|
  {
    if ids == [] {
      ds := [];
    } else {
      var id := ids[0];
      if id in s.pending && (sessions.Some? ==> s.pending[id].sessionId in sessions.value) && says(id) {
        var noted := Apply(s, Notes(ReEvaluated(id)));
        var step := FinishChain(noted, id, true, Approved, Some("policy:" + reason), now, c);
        var done := FinishEntry(noted, id, true, Approved, Some("policy:" + reason), now).0;
        var more := RecheckChain(done, ids[1..], sessions, reason, says, now, c);
        Append(noted, step, more, c);
        Cons(s, Notes(ReEvaluated(id)), step + more, c);
        ds := [Notes(ReEvaluated(id))] + (step + more);
      } else {
        ds := RecheckChain(s, ids[1..], sessions, reason, says, now, c);
      }
    }
  }

  lemma {:induction false} Append(s: Service, ds: seq<Change>, es: seq<Change>, c: Config)
    requires Chain(s, ds, c) && Chain(ApplyAll(s, ds, c), es, c)
    ensures Chain(s, ds + es, c) && ApplyAll(s, ds + es, c) == ApplyAll(ApplyAll(s, ds, c), es, c)
    decreases |ds|
  {
    if ds == [] {
      assert ds + es == es;
    } else {
      Append(Apply(s, ds[0]), ds[1..], es, c);
      assert (ds + es)[1..] == ds[1..] + es;
    }
  }

  lemma AskOrAllowChain(s: Service, r: Request, id: string, auto: bool, timeoutMs: int, now: int, c: Config)
    returns (ds: seq<Change>)
    requires id !in s.pending
    ensures Chain(s, ds, c) && ApplyAll(s, ds, c) == AskOrAllow(s, r, id, auto, timeoutMs, now).0
  {
    if auto {
      ds := [Allows(id)];
    } else {
      ds := [Opens(id, Entry(r.sessionId, r.kind, r.payload, |s.promises|, now + timeoutMs))];
    }
    One(s, ds[0], c);
  }

  lemma RecoverChain(s: Service, r: Recovery, c: Config) returns (ds: seq<Change>)
    requires r.id !in s.recovered && r.at - c.bootAt <= RESOLVED_RECOVERY_WINDOW_MS
    requires r.event.Some? ==> r.event == LatestResolved(s.journal, r.id)
    ensures Chain(s, ds, c) && ApplyAll(s, ds, c) == Recover(s, r).0
  {
    var t := Apply(s, Recovers(r));
    ds := if r.event.None? then [Notes(ReviewRecoveryRefused(r.id))] else [];
    if r.event.None? { One(t, ds[0], c); }
    Cons(s, Recovers(r), ds, c);
    ds := [Recovers(r)] + ds;
  }

  lemma StepChain(s: Service, op: Op, c: Config) returns (ds: seq<Change>)
    requires Allowed(s, op)
    ensures Chain(s, ds, c) && ApplyAll(s, ds, c) == Step(s, op, c)
  {
    match op
    case ResolveOp(id, approved, decider, now) =>
      ds := FinishChain(s, id, approved, if approved then Approved else Denied, decider, now, c);
    case TimerOp(id, now) => ds := FinishChain(s, id, false, Timeout, Some("system:timeout"), now, c);
    case InspectOp(id, now) => ds := InspectChain(s, id, now, c);
    case RecheckOp(ids, sessions, reason, says, now) => ds := RecheckChain(s, ids, sessions, reason, says, now, c);
    case AskOp(r, generated, auto, now) => ds := AskChain(s, r, generated, auto, now, c);
  }

  lemma InspectChain(s: Service, id: string, now: int, c: Config) returns (ds: seq<Change>)
    ensures Chain(s, ds, c) && ApplyAll(s, ds, c) == Inspect(s, id, now).0
  {
    ds := [];
    if id in s.pending && now >= s.pending[id].expiresAt {
      ds := FinishChain(s, id, false, Timeout, Some("system:timeout"), now, c);
    }
  }

  lemma AskChain(s: Service, r: Request, generated: string, auto: bool, now: int, c: Config) returns (ds: seq<Change>)
    requires r.id.None? ==> generated !in s.pending
    ensures Chain(s, ds, c) && ApplyAll(s, ds, c) == Ask(s, r, generated, auto, c.bootAt, c.timeoutMs, now).0
  {
    match r.id
    case None => ds := AskOrAllowChain(s, r, generated, auto, c.timeoutMs, now, c);
    case Some(id) =>
      if id in s.pending {
        if Matches(s.pending[id], r) {
          ds := InspectChain(s, id, now, c);
        } else {
          ds := [Notes(DuplicateMismatch(id))];
          One(s, ds[0], c);
        }
      } else {
        var recoverable := Recoverable(s, id, c.bootAt, now);
        if recoverable.Some? {
          ds := RecoverChain(s, recoverable.value, c);
        } else {
          ds := AskOrAllowChain(s, r, id, auto, c.timeoutMs, now, c);
        }
      }
  }

  // ---- the invariant -----------------------------------------------------------------------------------------

  /** What the database held at boot. */
  datatype Base = Base(journal: seq<JournalEvent>, decisions: seq<Row>)

  /** Promises still open are exactly the pending entries. */
  ghost predicate OpenIsPending(s: Service) {
    && (forall id :: id in s.pending ==>
          s.pending[id].promise < |s.promises| && s.promises[s.pending[id].promise] == Open(id, s.pending[id].expiresAt))
    && (forall p :: 0 <= p < |s.promises| && s.promises[p].Open? ==>
          s.promises[p].id in s.pending && s.pending[s.promises[p].id].promise == p)
  }

  /** A settled promise is true exactly if its own decision row is approved, and then before its deadline. */
  predicate SettledByRow(p: Promise, decisions: seq<Row>) {
    p.Settled? ==>
      && p.row < |decisions| && decisions[p.row].id == p.id && decisions[p.row].resolution
      && (p.approved <==> decisions[p.row].status == Approved)
      && (p.approved ==> p.at < p.expiresAt)
  }

  ghost predicate RowsJustify(s: Service, b: Base) {
    && b.decisions <= s.decisions
    && (forall p :: 0 <= p < |s.promises| ==> SettledByRow(s.promises[p], s.decisions))
    && (forall p :: 0 <= p < |s.promises| && s.promises[p].Settled? ==> |b.decisions| <= s.promises[p].row)
    && (forall p, q :: 0 <= p < q < |s.promises| && s.promises[p].Settled? && s.promises[q].Settled? ==>
          s.promises[p].row != s.promises[q].row)
  }

  function CountRequested(journal: seq<JournalEvent>, id: string): nat {
    if journal == [] then 0
    else
      var n := |journal| - 1;
      CountRequested(journal[..n], id) + if journal[n] == Requested(id) then 1 else 0
  }

  function CountResolved(journal: seq<JournalEvent>, id: string): nat {
    if journal == [] then 0
    else
      var n := |journal| - 1;
      CountResolved(journal[..n], id) + if journal[n].Resolved? && journal[n].id == id then 1 else 0
  }

  /** Requests journaled by this process, less those it resolved, are the pending ones. */
  ghost predicate Counted(s: Service, b: Base) {
    b.journal <= s.journal
    && forall id :: CountRequested(s.journal, id) - CountRequested(b.journal, id)
                    == CountResolved(s.journal, id) - CountResolved(b.journal, id) + if id in s.pending then 1 else 0
  }

  /** Answers from before boot: one per id, in the window, from an event already there at boot. */
  ghost predicate RecoveriesBounded(s: Service, b: Base, c: Config) {
    && b.journal <= s.journal
    && (forall i :: |b.journal| <= i < |s.journal| && s.journal[i].Resolved? ==> s.journal[i].id in s.recovered)
    && (forall i :: 0 <= i < |s.recoveries| ==> FromBeforeBoot(s.recoveries[i], s, b, c))
    && (forall i, j :: 0 <= i < j < |s.recoveries| ==> s.recoveries[i].id != s.recoveries[j].id)
  }

  predicate FromBeforeBoot(r: Recovery, s: Service, b: Base, c: Config) {
    && r.id in s.recovered
    && r.at - c.bootAt <= RESOLVED_RECOVERY_WINDOW_MS
    && (r.event.Some? ==> r.event.value < |b.journal| && b.journal[r.event.value].Resolved? && b.journal[r.event.value].id == r.id)
  }

  /** The insertion order lists the pending ids. */
  ghost predicate OrderLists(s: Service) {
    && (forall id :: id in s.pending <==> id in s.order)
    && (forall i, j :: 0 <= i < j < |s.order| ==> s.order[i] != s.order[j])
  }

  ghost predicate Inv(s: Service, b: Base, c: Config) {
    OpenIsPending(s) && RowsJustify(s, b) && Counted(s, b) && RecoveriesBounded(s, b, c) && OrderLists(s)
  }

  lemma KeepsOpen(s: Service, d: Change, c: Config)
    requires OpenIsPending(s) && Justified(s, d, c)
    ensures OpenIsPending(Apply(s, d))
  {
  }

  lemma KeepsRows(s: Service, d: Change, b: Base, c: Config)
    requires OpenIsPending(s) && RowsJustify(s, b) && Justified(s, d, c)
    ensures RowsJustify(Apply(s, d), b)
  {
    var t := Apply(s, d);
    match d
    case Settles(id, approved, status, decider, now) => SettleKeepsRows(s, b, id, approved, status, decider, now);
    case Opens(id, e) => forall p | 0 <= p < |t.promises| ensures SettledByRow(t.promises[p], t.decisions) {
      if p < |s.promises| { assert SettledByRow(s.promises[p], s.decisions); }
    }
    case Allows(id) => forall p | 0 <= p < |t.promises| ensures SettledByRow(t.promises[p], t.decisions) {
      assert SettledByRow(s.promises[p], s.decisions);
    }
    case _ =>
  }

  lemma SettleKeepsRows(s: Service, b: Base, id: string, approved: bool, status: Status, decider: string, now: int)
    requires OpenIsPending(s) && RowsJustify(s, b) && id in s.pending
    requires (approved <==> status == Approved) && (approved ==> now < s.pending[id].expiresAt)
    ensures RowsJustify(Settle(s, id, approved, status, decider, now), b)
  {
    var t := Settle(s, id, approved, status, decider, now);
    var own := s.pending[id].promise;
    forall p | 0 <= p < |t.promises|
      ensures SettledByRow(t.promises[p], t.decisions)
      ensures t.promises[p].Settled? ==> |b.decisions| <= t.promises[p].row
      ensures p != own && t.promises[p].Settled? ==> t.promises[p].row < |s.decisions|
    {
      if p != own { assert t.promises[p] == s.promises[p] && SettledByRow(s.promises[p], s.decisions); }
    }
  }

  lemma SnocCounts(journal: seq<JournalEvent>, e: JournalEvent, id: string)
    ensures CountRequested(journal + [e], id) == CountRequested(journal, id) + if e == Requested(id) then 1 else 0
    ensures CountResolved(journal + [e], id) == CountResolved(journal, id) + if e.Resolved? && e.id == id then 1 else 0
  {
    assert (journal + [e])[..|journal|] == journal;
  }

  function Added(d: Change): Option<JournalEvent> {
    match d
    case Opens(id, _) => Some(Requested(id))
    case Settles(id, _, status, decider, _) => Some(Resolved(id, status, decider))
    case Notes(event) => Some(event)
    case Allows(id) => Some(AutoApproved(id))
    case Recovers(_) => None
  }

  lemma KeepsCounted(s: Service, d: Change, b: Base, c: Config)
    requires Counted(s, b) && Justified(s, d, c)
    ensures Counted(Apply(s, d), b)
  {
    var t := Apply(s, d);
    forall id ensures CountRequested(t.journal, id) - CountRequested(b.journal, id)
                      == CountResolved(t.journal, id) - CountResolved(b.journal, id) + if id in t.pending then 1 else 0
    {
      if Added(d).Some? { SnocCounts(s.journal, Added(d).value, id); }
    }
  }

  lemma KeepsRecoveries(s: Service, d: Change, b: Base, c: Config)
    requires RecoveriesBounded(s, b, c) && Justified(s, d, c)
    ensures RecoveriesBounded(Apply(s, d), b, c)
  {
    var t := Apply(s, d);
    forall i | 0 <= i < |s.recoveries| ensures FromBeforeBoot(s.recoveries[i], t, b, c) {
      assert FromBeforeBoot(s.recoveries[i], s, b, c);
    }
    match d
    case Recovers(r) =>
      var e := LatestResolved(s.journal, r.id);
      assert r.event.Some? ==> e == r.event && s.journal[e.value].Resolved? && s.journal[e.value].id !in s.recovered;
      assert FromBeforeBoot(r, t, b, c);
    case _ =>
  }

  lemma {:induction false} WithoutLists(ids: seq<string>, id: string)
    requires forall i, j :: 0 <= i < j < |ids| ==> ids[i] != ids[j]
    ensures forall x :: x in Without(ids, id) <==> x in ids && x != id
    ensures forall i, j :: 0 <= i < j < |Without(ids, id)| ==> Without(ids, id)[i] != Without(ids, id)[j]
  {
    if ids != [] {
      assert ids == [ids[0]] + ids[1..];
      if ids[0] != id {
        WithoutLists(ids[1..], id);
        var t := Without(ids[1..], id);
        forall j | 0 <= j < |t| ensures t[j] != ids[0] { assert t[j] in t; }
      }
    }
  }

  /** The others keep their order. */
  lemma {:induction false} WithoutKeepsOrder(ids: seq<string>, id: string) returns (k: nat)
    ensures id !in ids ==> Without(ids, id) == ids
    ensures id in ids ==> k < |ids| && ids[k] == id && Without(ids, id) == ids[..k] + ids[k + 1..]
  {
    k := 0;
    if ids != [] && ids[0] != id {
      var m := WithoutKeepsOrder(ids[1..], id);
      assert ids == [ids[0]] + ids[1..];
      if id in ids {
        k := m + 1;
        assert ids[..k] == [ids[0]] + ids[1..][..m] && ids[k + 1..] == ids[1..][m + 1..];
      }
    }
  }

  lemma KeepsOrder(s: Service, d: Change, c: Config)
    requires OrderLists(s) && Justified(s, d, c)
    ensures OrderLists(Apply(s, d))
  {
    if d.Settles? { WithoutLists(s.order, d.id); }
  }

  lemma ApplyKeepsInv(s: Service, d: Change, b: Base, c: Config)
    requires Inv(s, b, c) && Justified(s, d, c)
    ensures Inv(Apply(s, d), b, c)
  {
    KeepsOpen(s, d, c);
    KeepsRows(s, d, b, c);
    KeepsCounted(s, d, b, c);
    KeepsRecoveries(s, d, b, c);
    KeepsOrder(s, d, c);
  }

  lemma {:induction false} ChainKeepsInv(s: Service, ds: seq<Change>, b: Base, c: Config)
    requires Inv(s, b, c) && Chain(s, ds, c)
    ensures Inv(ApplyAll(s, ds, c), b, c)
    decreases |ds|
  {
    if ds != [] {
      ApplyKeepsInv(s, ds[0], b, c);
      ChainKeepsInv(Apply(s, ds[0]), ds[1..], b, c);
    }
  }

  lemma {:induction false} RunKeepsInv(s: Service, ops: seq<Op>, b: Base, c: Config)
    requires Inv(s, b, c) && AllowedRun(s, ops, c)
    ensures Inv(Run(s, ops, c), b, c)
    decreases |ops|
  {
    if ops != [] {
      var ds := StepChain(s, ops[0], c);
      ChainKeepsInv(s, ds, b, c);
      RunKeepsInv(Step(s, ops[0], c), ops[1..], b, c);
    }
  }

  lemma BootInv(b: Base, c: Config)
    ensures Inv(Boot(b.journal, b.decisions), b, c)
  {
  }

  /** A state some process reaches from a database. */
  function Reached(b: Base, ops: seq<Op>, c: Config): Service {
    Run(Boot(b.journal, b.decisions), ops, c)
  }

  predicate AllowedFrom(b: Base, ops: seq<Op>, c: Config) {
    AllowedRun(Boot(b.journal, b.decisions), ops, c)
  }

  lemma ReachedInv(b: Base, ops: seq<Op>, c: Config)
    requires AllowedFrom(b, ops, c)
    ensures Inv(Reached(b, ops, c), b, c)
  {
    BootInv(b, c);
    RunKeepsInv(Boot(b.journal, b.decisions), ops, b, c);
  }

  // ---- theorems about one process ---------------------------------------------------------------------------

  /** For every id: requests journaled are those resolved plus the one pending, if any. */
  lemma RequestedIsResolvedPlusPending(b: Base, ops: seq<Op>, c: Config, id: string)
    requires AllowedFrom(b, ops, c)
    ensures var s := Reached(b, ops, c);
            CountRequested(s.journal, id) - CountRequested(b.journal, id)
            == CountResolved(s.journal, id) - CountResolved(b.journal, id) + if id in s.pending then 1 else 0
  {
    ReachedInv(b, ops, c);
  }

  /** A promise is open exactly while its request is pending; settled, it follows its own decision row. */
  lemma PromiseFollowsRow(b: Base, ops: seq<Op>, c: Config, p: nat)
    requires AllowedFrom(b, ops, c) && p < |Reached(b, ops, c).promises|
    ensures var s := Reached(b, ops, c);
            match s.promises[p]
            case Open(id, _) => id in s.pending && s.pending[id].promise == p
            case Settled(id, expiresAt, approved, row, at) =>
              && (id in s.pending ==> s.pending[id].promise != p)
              && |b.decisions| <= row < |s.decisions| && s.decisions[row].id == id
              && (approved <==> s.decisions[row].status == Approved)
              && (approved ==> at < expiresAt)
  {
    ReachedInv(b, ops, c);
    var s := Reached(b, ops, c);
    assert SettledByRow(s.promises[p], s.decisions);
  }

  /** Promises persist: numbered alike, same request, and settled at most once. */
  ghost predicate PromisesAdvance(s: Service, t: Service) {
    |s.promises| <= |t.promises|
    && forall p :: 0 <= p < |s.promises| ==>
         && t.promises[p].id == s.promises[p].id && t.promises[p].expiresAt == s.promises[p].expiresAt
         && (s.promises[p].Settled? ==> t.promises[p] == s.promises[p])
  }

  lemma {:induction false} ChainAdvances(s: Service, ds: seq<Change>, b: Base, c: Config)
    requires Inv(s, b, c) && Chain(s, ds, c)
    ensures PromisesAdvance(s, ApplyAll(s, ds, c))
    decreases |ds|
  {
    if ds != [] {
      ApplyKeepsInv(s, ds[0], b, c);
      ChainAdvances(Apply(s, ds[0]), ds[1..], b, c);
      ApplyAdvances(s, ds[0], c);
      AdvanceTransitive(s, Apply(s, ds[0]), ApplyAll(s, ds, c));
    }
  }

  lemma ApplyAdvances(s: Service, d: Change, c: Config)
    requires OpenIsPending(s) && Justified(s, d, c)
    ensures PromisesAdvance(s, Apply(s, d))
  {
  }

  lemma AdvanceTransitive(s: Service, t: Service, u: Service)
    requires PromisesAdvance(s, t) && PromisesAdvance(t, u)
    ensures PromisesAdvance(s, u)
  {
  }

  lemma {:induction false} RunAdvances(s: Service, ops: seq<Op>, b: Base, c: Config)
    requires Inv(s, b, c) && AllowedRun(s, ops, c)
    ensures PromisesAdvance(s, Run(s, ops, c))
    decreases |ops|
  {
    if ops != [] {
      var ds := StepChain(s, ops[0], c);
      ChainKeepsInv(s, ds, b, c);
      ChainAdvances(s, ds, b, c);
      RunAdvances(Step(s, ops[0], c), ops[1..], b, c);
      AdvanceTransitive(s, Step(s, ops[0], c), Run(s, ops, c));
    }
  }

  /** Whatever follows, a settled promise keeps its answer. */
  lemma SettledOnce(b: Base, before: seq<Op>, after: seq<Op>, c: Config, p: nat)
    requires AllowedFrom(b, before, c) && AllowedRun(Reached(b, before, c), after, c)
    requires p < |Reached(b, before, c).promises| && Reached(b, before, c).promises[p].Settled?
    ensures var s, t := Reached(b, before, c), Run(Reached(b, before, c), after, c);
            p < |t.promises| && t.promises[p] == s.promises[p]
  {
    ReachedInv(b, before, c);
    RunAdvances(Reached(b, before, c), after, b, c);
  }

  /** A matching re-issue of a pending id before its deadline changes nothing and gets the same promise. */
  lemma MatchingReissueIsNoOp(s: Service, r: Request, generated: string, auto: bool, c: Config, now: int)
    requires r.id.Some? && r.id.value in s.pending && Matches(s.pending[r.id.value], r) && now < s.pending[r.id.value].expiresAt
    ensures Ask(s, r, generated, auto, c.bootAt, c.timeoutMs, now) == (s, Wait(s.pending[r.id.value].promise))
  {
  }

  /** A mismatched one is answered false, and only noted. */
  lemma MismatchRefused(s: Service, r: Request, generated: string, auto: bool, c: Config, now: int)
    requires r.id.Some? && r.id.value in s.pending
    requires ValidValue(s.pending[r.id.value].payload) && ValidValue(r.payload)
    requires s.pending[r.id.value].sessionId == r.sessionId && s.pending[r.id.value].kind == r.kind ==>
               !SameValue(s.pending[r.id.value].payload, r.payload)
    ensures var (t, reply) := Ask(s, r, generated, auto, c.bootAt, c.timeoutMs, now);
            reply == Answer(false) && t == s.(journal := s.journal + [DuplicateMismatch(r.id.value)])
  {
    ReviewDigest.DigestDecides(s.pending[r.id.value].payload, r.payload);
  }

  /** Answers from before boot come once per id, inside the window, and only from events of earlier processes. */
  lemma RecoveredAtMostOnce(b: Base, ops: seq<Op>, c: Config, i: nat)
    requires AllowedFrom(b, ops, c) && i < |Reached(b, ops, c).recoveries|
    ensures var s := Reached(b, ops, c); var r := s.recoveries[i];
            && (forall j :: 0 <= j < |s.recoveries| && j != i ==> s.recoveries[j].id != r.id)
            && r.at - c.bootAt <= RESOLVED_RECOVERY_WINDOW_MS
            && (r.event.Some? ==> r.event.value < |b.journal| && b.journal[r.event.value].Resolved? && b.journal[r.event.value].id == r.id)
  {
    ReachedInv(b, ops, c);
    var s := Reached(b, ops, c);
    assert FromBeforeBoot(s.recoveries[i], s, b, c);
  }

  predicate RecoveredId(rs: seq<Recovery>, id: string) { exists i :: 0 <= i < |rs| && rs[i].id == id }

  /** Marked ids stay marked and get no new answer from before boot. */
  ghost predicate NoNewRecovery(s: Service, t: Service, id: string) {
    id in t.recovered && (RecoveredId(t.recoveries, id) ==> RecoveredId(s.recoveries, id))
  }

  lemma {:induction false} ChainNoNewRecovery(s: Service, ds: seq<Change>, c: Config, id: string)
    requires Chain(s, ds, c) && id in s.recovered
    ensures NoNewRecovery(s, ApplyAll(s, ds, c), id)
    decreases |ds|
  {
    if ds != [] {
      ChainNoNewRecovery(Apply(s, ds[0]), ds[1..], c, id);
    }
  }

  lemma {:induction false} RunNoNewRecovery(s: Service, ops: seq<Op>, c: Config, id: string)
    requires AllowedRun(s, ops, c) && id in s.recovered
    ensures NoNewRecovery(s, Run(s, ops, c), id)
    decreases |ops|
  {
    if ops != [] {
      var ds := StepChain(s, ops[0], c);
      ChainNoNewRecovery(s, ds, c, id);
      RunNoNewRecovery(Step(s, ops[0], c), ops[1..], c, id);
    }
  }

  /** Once this process has settled an id through finish, no re-issue of it is answered from before boot. */
  lemma NoRecoveryAfterSettlement(b: Base, before: seq<Op>, after: seq<Op>, c: Config, i: nat)
    requires AllowedFrom(b, before, c) && AllowedRun(Reached(b, before, c), after, c)
    requires |b.journal| <= i < |Reached(b, before, c).journal| && Reached(b, before, c).journal[i].Resolved?
    ensures var s := Reached(b, before, c);
            NoNewRecovery(s, Run(s, after, c), s.journal[i].id)
  {
    ReachedInv(b, before, c);
    RunNoNewRecovery(Reached(b, before, c), after, c, Reached(b, before, c).journal[i].id);
  }

  /** A request that is neither pending nor answered from before boot is allowed by live policy or becomes pending. */
  lemma OthersAskPolicyOrPend(s: Service, r: Request, generated: string, auto: bool, c: Config, now: int)
    requires r.id.None? ==> generated !in s.pending
    ensures var id := if r.id.Some? then r.id.value else generated;
            var (t, reply) := Ask(s, r, generated, auto, c.bootAt, c.timeoutMs, now);
            id !in s.pending && |t.recoveries| == |s.recoveries| ==>
              && (auto ==> reply == Answer(true) && t.pending == s.pending)
              && (!auto ==> id in t.pending && reply == Wait(t.pending[id].promise) && t.pending[id].expiresAt == now + c.timeoutMs)
  {
  }

  // ---- reviewer decisions across restarts ---------------------------------------------------------------------------

  /** The decision rows that the journal's approval/resolved events stand for. */
  function EventRows(journal: seq<JournalEvent>): seq<Row> {
    if journal == [] then []
    else
      var n := |journal| - 1;
      EventRows(journal[..n])
      + if journal[n].Resolved? then [Row(journal[n].id, journal[n].status, journal[n].decider, true)] else []
  }

  function ResolutionRows(rows: seq<Row>): seq<Row> {
    if rows == [] then []
    else
      var n := |rows| - 1;
      ResolutionRows(rows[..n]) + if rows[n].resolution then [rows[n]] else []
  }

  /** Events and rows are written together; only auto-approvals write a row alone. */
  predicate Paired(journal: seq<JournalEvent>, rows: seq<Row>) {
    && EventRows(journal) == ResolutionRows(rows)
    && forall i :: 0 <= i < |rows| && !rows[i].resolution ==> rows[i].decider == "policy:auto-approve"
  }

  lemma PairedSnoc(journal: seq<JournalEvent>, e: JournalEvent, rows: seq<Row>, row: Row)
    ensures EventRows(journal + [e]) ==
            EventRows(journal) + if e.Resolved? then [Row(e.id, e.status, e.decider, true)] else []
    ensures ResolutionRows(rows + [row]) == ResolutionRows(rows) + if row.resolution then [row] else []
  {
    assert (journal + [e])[..|journal|] == journal && (rows + [row])[..|rows|] == rows;
  }

  lemma ApplyKeepsPaired(s: Service, d: Change, c: Config)
    requires Paired(s.journal, s.decisions) && Justified(s, d, c)
    ensures Paired(Apply(s, d).journal, Apply(s, d).decisions)
  {
    var row := match d
      case Settles(id, _, status, decider, _) => Row(id, status, decider, true)
      case Allows(id) => Row(id, Approved, "policy:auto-approve", false)
      case _ => Row([], Denied, [], false);
    if Added(d).Some? { PairedSnoc(s.journal, Added(d).value, s.decisions, row); }
  }

  lemma {:induction false} ChainKeepsPaired(s: Service, ds: seq<Change>, c: Config)
    requires Paired(s.journal, s.decisions) && Chain(s, ds, c)
    ensures var t := ApplyAll(s, ds, c); Paired(t.journal, t.decisions)
    decreases |ds|
  {
    if ds != [] {
      ApplyKeepsPaired(s, ds[0], c);
      ChainKeepsPaired(Apply(s, ds[0]), ds[1..], c);
    }
  }

  lemma {:induction false} RunKeepsPaired(s: Service, ops: seq<Op>, c: Config)
    requires Paired(s.journal, s.decisions) && AllowedRun(s, ops, c)
    ensures var t := Run(s, ops, c); Paired(t.journal, t.decisions)
    decreases |ops|
  {
    if ops != [] {
      var ds := StepChain(s, ops[0], c);
      ChainKeepsPaired(s, ds, c);
      RunKeepsPaired(Step(s, ops[0], c), ops[1..], c);
    }
  }

  /** One process after another over the same database. */
  function Processes(b: Base, runs: seq<(Config, seq<Op>)>): Base
    decreases |runs|
  {
    if runs == [] then b
    else
      var s := Reached(b, runs[0].1, runs[0].0);
      Processes(Base(s.journal, s.decisions), runs[1..])
  }

  predicate AllowedProcesses(b: Base, runs: seq<(Config, seq<Op>)>)
    decreases |runs|
  {
    runs == [] ||
    (AllowedFrom(b, runs[0].1, runs[0].0) &&
     var s := Reached(b, runs[0].1, runs[0].0); AllowedProcesses(Base(s.journal, s.decisions), runs[1..]))
  }

  lemma {:induction false} ProcessesKeepPaired(b: Base, runs: seq<(Config, seq<Op>)>)
    requires Paired(b.journal, b.decisions) && AllowedProcesses(b, runs)
    ensures var d := Processes(b, runs); Paired(d.journal, d.decisions)
    decreases |runs|
  {
    if runs != [] {
      RunKeepsPaired(Boot(b.journal, b.decisions), runs[0].1, runs[0].0);
      var s := Reached(b, runs[0].1, runs[0].0);
      ProcessesKeepPaired(Base(s.journal, s.decisions), runs[1..]);
    }
  }

  lemma LatestRowSnoc(rows: seq<Row>, row: Row, id: string)
    ensures LatestRow(rows + [row], id) == if row.id == id then Some(row) else LatestRow(rows, id)
  {
    assert (rows + [row])[..|rows|] == rows;
  }

  /** The latest event of an id and its latest row written with an event are the same decision. */
  lemma {:induction false} LatestEventIsLatestRow(journal: seq<JournalEvent>, id: string)
    ensures LatestRow(EventRows(journal), id) ==
            match LatestResolved(journal, id)
            case None => None
            case Some(e) => Some(Row(id, journal[e].status, journal[e].decider, true))
  {
    if journal != [] {
      var n := |journal| - 1;
      var last := journal[n];
      LatestEventIsLatestRow(journal[..n], id);
      if last.Resolved? {
        LatestRowSnoc(EventRows(journal[..n]), Row(last.id, last.status, last.decider, true), id);
      } else {
        assert EventRows(journal[..n]) + [] == EventRows(journal[..n]);
      }
    }
  }

  /** A row written alone and newest hides the latest resolution of its id; otherwise they are the same row. */
  lemma {:induction false} NewestRow(rows: seq<Row>, id: string)
    ensures LatestRow(ResolutionRows(rows), id).Some? ==> LatestRow(rows, id).Some?
    ensures LatestRow(rows, id).Some? && LatestRow(rows, id).value.resolution ==> LatestRow(ResolutionRows(rows), id) == LatestRow(rows, id)
  {
    if rows != [] {
      var n := |rows| - 1;
      NewestRow(rows[..n], id);
      var rs := ResolutionRows(rows[..n]);
      if rows[n].resolution {
        assert ResolutionRows(rows)[..|rs|] == rs;
      } else {
        assert ResolutionRows(rows) == rs;
      }
    }
  }

  /** The answer this re-issue gets repeats a scoped reviewer's decision. */
  predicate ReplaysReviewer(s: Service, id: string, c: Config, now: int) {
    match Recoverable(s, id, c.bootAt, now)
    case None => false
    case Some(r) => r.event.Some? && Reviewer(s.journal[r.event.value].decider)
  }

  /**
  Scoped-reviewer decisions are meant to be refused after a restart. They are, except exactly when an
  auto-approval row for the same id is newer than the reviewer's: then the reviewer's decision is replayed.
  */
  lemma ReviewerReplayedExactly(s: Service, id: string, c: Config, now: int)
    requires Paired(s.journal, s.decisions)
    ensures ReplaysReviewer(s, id, c, now) <==>
            && id !in s.recovered && now - c.bootAt <= RESOLVED_RECOVERY_WINDOW_MS
            && LatestRow(s.decisions, id).Some? && !LatestRow(s.decisions, id).value.resolution
            && LatestRow(ResolutionRows(s.decisions), id).Some?
            && Reviewer(LatestRow(ResolutionRows(s.decisions), id).value.decider)
  {
    LatestEventIsLatestRow(s.journal, id);
    NewestRow(s.decisions, id);
    AutoIsNoReviewer();
    var newest := LatestRow(s.decisions, id);
    if newest.Some? && !newest.value.resolution {
      var i :| 0 <= i < |s.decisions| && s.decisions[i] == newest.value;
    }
  }

  lemma AutoIsNoReviewer()
    ensures !Reviewer("policy:auto-approve")
  {
    var a, b := REVIEWER_PREFIX, "policy:auto-approve";
    assert a[0] == 'o' && b[0] == 'p';
  }

  /** The history that shows it: ask, a reviewer approves, the policy allows a repeat; the hub restarts at time 3. */
  function MaskingHistory(r: Request, reviewer: string): seq<Op> {
    [AskOp(r, "", false, 0), ResolveOp(if r.id.Some? then r.id.value else "", true, Some(reviewer), 1), AskOp(r, "", true, 2)]
  }

  lemma MaskedReviewerReplayed(r: Request, reviewer: string, c: Config, later: Config)
    requires r.id.Some? && Reviewer(reviewer) && Decider(Some(reviewer)) == reviewer && c.bootAt == 0 && c.timeoutMs >= 1000
    requires later.bootAt == 3
    ensures AllowedFrom(Base([], []), MaskingHistory(r, reviewer), c)
    ensures var s := Reached(Base([], []), MaskingHistory(r, reviewer), c);
            var next := Boot(s.journal, s.decisions);
            ReplaysReviewer(next, r.id.value, later, 4)
            && Ask(next, r, "", false, later.bootAt, later.timeoutMs, 4).1 == Answer(true)
  {
    var id := r.id.value;
    var ops := MaskingHistory(r, reviewer);
    var s0 := Boot([], []);
    var s1 := Step(s0, ops[0], c);
    assert s1.pending.Keys == {id} && s1.pending[id].expiresAt == c.timeoutMs;
    assert s1.journal == [Requested(id)] && s1.decisions == [] && s1.recovered == {};
    var s2 := Step(s1, ops[1], c);
    ResolvedByReviewer(s1, id, reviewer);
    var s3 := Step(s2, ops[2], c);
    RunThree(s0, ops[0], ops[1], ops[2], c);
    MaskedDatabase(s3, id, reviewer, later);
  }

  lemma ResolvedByReviewer(s: Service, id: string, reviewer: string)
    requires s.pending.Keys == {id} && s.pending[id].expiresAt >= 1000 && s.journal == [Requested(id)] && s.decisions == []
    requires Decider(Some(reviewer)) == reviewer
    ensures var t := ResolveEntry(s, id, true, Some(reviewer), 1).0;
            t.journal == [Requested(id), Resolved(id, Approved, reviewer)] && t.decisions == [Row(id, Approved, reviewer, true)]
            && id in t.recovered && id !in t.pending
  {
  }

  lemma RunThree(s: Service, a: Op, b: Op, d: Op, c: Config)
    ensures Run(s, [a, b, d], c) == Step(Step(Step(s, a, c), b, c), d, c)
    ensures AllowedRun(s, [a, b, d], c) <==>
            Allowed(s, a) && Allowed(Step(s, a, c), b) && Allowed(Step(Step(s, a, c), b, c), d)
  {
    assert [a, b, d][1..] == [b, d] && [b, d][1..] == [d] && [d][1..] == [];
    var t := Step(s, a, c);
    var u := Step(t, b, c);
    assert AllowedRun(Step(u, d, c), [], c);
    assert AllowedRun(u, [d], c) <==> Allowed(u, d) && AllowedRun(Step(u, d, c), [d][1..], c);
    assert Run(u, [d], c) == Step(u, d, c) && (AllowedRun(u, [d], c) <==> Allowed(u, d));
    assert Run(t, [b, d], c) == Run(u, [d], c) && (AllowedRun(t, [b, d], c) <==> Allowed(t, b) && AllowedRun(u, [d], c));
  }

  lemma MaskedDatabase(s: Service, id: string, reviewer: string, later: Config)
    requires s.journal == [Requested(id), Resolved(id, Approved, reviewer), AutoApproved(id)] && Reviewer(reviewer)
    requires s.decisions == [Row(id, Approved, reviewer, true), Row(id, Approved, "policy:auto-approve", false)] && later.bootAt == 3
    ensures Recoverable(Boot(s.journal, s.decisions), id, later.bootAt, 4) == Some(Recovery(id, 4, Some(1)))
  {
    AutoIsNoReviewer();
    var j := s.journal;
    assert j[..2][1] == Resolved(id, Approved, reviewer);
    assert LatestResolved(j[..2], id) == Some(1);
    assert LatestResolved(j, id) == LatestResolved(j[..2], id);
  }
}
