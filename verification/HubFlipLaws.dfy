/**
 What every restart keeps, for all scripts: the order of the hand-off, no rollback after the commit,
 and a supervisor that stands in exactly one known way afterwards. The proofs follow the restart: waiting
 decides nothing, each step gives what the next one needs, a rollback never commits, and a recovery
 ends latched or with a fresh owner of the backups.
*/
module HubFlipLaws {
  import opened Prelude
  import opened BackupOwnership
  import opened HubFlip

  // ---- the trace ------------------------------------------------------------------------------------

  /** What the trace looks like before the flip is decided. */
  ghost predicate Undecided(log: seq<Effect>, green: Proc) {
    && Committed !in log && Killed(green) !in log && KilledAll !in log
    && forall e :: e in log ==> !e.RebindSent? && !e.RetireSent? && !e.PostFlipFailure?
  }

  /** Once promote was sent, green's exit was seen and then the port was probed free. */
  ghost predicate GreenGone(log: seq<Effect>, green: Proc) {
    PromoteSent(green) in log ==>
      exists k, m :: 0 <= k < m < |log| && log[k] == Exited(green) && log[m] == PortFree
  }

  /** What must already have happened before each step of the hand-off. */
  ghost predicate Permitted(past: seq<Effect>, e: Effect, blue: Proc, green: Proc) {
    match e
    case DrainSent(p) => Paused(p) in past
    case PromoteSent(_) => Released(blue) in past
    case Committed => Promoted(green) in past && Activated(green) in past
    case RetireSent(_) => Committed in past
    case PostFlipFailure => Committed in past
    case Released(p) => DrainSent(p) in past
    case Promoted(p) => PromoteSent(p) in past
    case RebindAcked(p) => RebindSent(p) in past
    case RebindSent(_) => Killed(green) in past && GreenGone(past, green)
    case _ => true
  }

  /** Every step of the trace was permitted by what came before it. */
  ghost predicate Ordered(log: seq<Effect>, blue: Proc, green: Proc) {
    log == [] ||
    (var past := log[..|log| - 1]; Ordered(past, blue, green) && Permitted(past, log[|log| - 1], blue, green))
  }

  /** After the commit point nothing is rolled back. */
  ghost predicate NoRollbackAfterCommit(log: seq<Effect>, green: Proc) {
    Committed in log ==>
      Killed(green) !in log && KilledAll !in log && forall e :: e in log ==> !e.RebindSent?
  }

  /** Effects that no ordering rule constrains and that decide nothing. */
  predicate Mild(e: Effect) {
    e.Exited? || e.Paused? || e.Activated?
  }

  ghost predicate MildTail(log: seq<Effect>, more: seq<Effect>) {
    log <= more && forall i :: |log| <= i < |more| ==> Mild(more[i])
  }

  lemma OrderedStep(log: seq<Effect>, e: Effect, blue: Proc, green: Proc)
    requires Ordered(log, blue, green) && Permitted(log, e, blue, green)
    ensures Ordered(log + [e], blue, green)
  {
    assert (log + [e])[..|log|] == log;
  }

  lemma {:induction false} MildOrdered(log: seq<Effect>, more: seq<Effect>, blue: Proc, green: Proc)
    requires Ordered(log, blue, green) && MildTail(log, more)
    ensures Ordered(more, blue, green)
  {
    if |more| > |log| {
      var n := |more| - 1;
      MildOrdered(log, more[..n], blue, green);
      OrderedStep(more[..n], more[n], blue, green);
      assert more[..n] + [more[n]] == more;
    } else {
      assert log == more;
    }
  }

  lemma MildMembers(log: seq<Effect>, more: seq<Effect>)
    requires MildTail(log, more)
    ensures forall e :: e in log ==> e in more
    ensures forall e :: e in more && !Mild(e) ==> e in log
  {
    forall e | e in more && !Mild(e) ensures e in log {
      var i :| 0 <= i < |more| && more[i] == e;
      assert log[i] == e;
    }
  }

  /** What the order means at each position of the trace. */
  lemma {:induction false} OrderedMeans(log: seq<Effect>, blue: Proc, green: Proc, j: nat)
    requires Ordered(log, blue, green) && j < |log|
    ensures Permitted(log[..j], log[j], blue, green)
  {
    var past := log[..|log| - 1];
    if j < |past| {
      OrderedMeans(past, blue, green, j);
      assert past[..j] == log[..j];
    }
  }

  // ---- the supervisor -----------------------------------------------------------------------------------

  ghost predicate Valid(s: State) {
    && (forall p :: p in s.running ==> p < s.next)
    && (forall p :: p in s.retired ==> p < s.next)
    && (s.live.Some? ==> s.live.value in s.running && s.live.value !in s.retired)
    && (s.protocol.owner.Some? ==> s.protocol.owner.value < s.next)
  }

  /** Mid-flip, before any decision: blue is live exactly while it runs, or a revival is owed. */
  ghost predicate Flipping(s: State, blue: Proc, green: Proc) {
    && Valid(s) && s.inFlight && !s.poisoned && blue != green
    && blue < s.next && green < s.next && blue !in s.retired
    && s.live == (if blue in s.running then Some(blue) else None)
    && (s.live.None? ==> s.owed)
    && (green !in s.running ==> Exited(green) in s.log)
  }

  /** Mid-flip with an ordered trace and nothing decided. */
  ghost predicate Going(s: State, blue: Proc, green: Proc) {
    Flipping(s, blue, green) && Undecided(s.log, green) && Ordered(s.log, blue, green)
  }

  /** Mid-flip on the way back: the flip will not commit any more. */
  ghost predicate Backing(s: State, blue: Proc, green: Proc) {
    && Flipping(s, blue, green) && Committed !in s.log && Ordered(s.log, blue, green)
    && Killed(green) in s.log && green in s.retired
  }

  /** What waiting may change. */
  ghost predicate Waited(s: State, t: State) {
    && t.protocol == s.protocol && t.inFlight == s.inFlight && t.poisoned == s.poisoned
    && t.retired == s.retired && t.next == s.next && t.running <= s.running
    && t.live == (if s.live.Some? && s.live.value !in t.running then None else s.live)
    && t.owed == (s.owed || (t.live != s.live && !s.poisoned && s.inFlight))
    && t.reviving == (s.reviving || (t.live != s.live && !s.poisoned && !s.inFlight))
    && MildTail(s.log, t.log)
    && (forall p :: p in s.running && p !in t.running ==> Exited(p) in t.log)
  }

  lemma OnExitWaited(s: State, t: State, p: Proc)
    requires Valid(s) && Valid(t) && Waited(s, t)
    ensures Valid(OnExit(t, p)) && Waited(s, OnExit(t, p))
    ensures OnExit(t, p).running == t.running - {p}
  {
  }

  lemma {:induction false} ExitAllWaited(s: State, ps: seq<Proc>)
    requires Valid(s)
    ensures Valid(ExitAll(s, ps)) && Waited(s, ExitAll(s, ps))
    ensures ExitAll(s, ps).running == s.running - ExitSet(ps)
  {
    if ps != [] {
      var n := |ps| - 1;
      ExitAllWaited(s, ps[..n]);
      OnExitWaited(s, ExitAll(s, ps[..n]), ps[n]);
      assert forall p :: p in ExitSet(ps) <==> p in ExitSet(ps[..n]) || p == ps[n];
    }
  }

  function ExitSet(ps: seq<Proc>): set<Proc> { set p | p in ps }

  lemma WaitedFlipping(s: State, t: State, blue: Proc, green: Proc)
    requires Flipping(s, blue, green) && Valid(t) && Waited(s, t)
    ensures Flipping(t, blue, green)
  {
    MildMembers(s.log, t.log);
  }

  /** Waiting keeps the flip where it is. */
  lemma WaitKeeps(s: State, ps: seq<Proc>, blue: Proc, green: Proc)
    requires Flipping(s, blue, green) && Ordered(s.log, blue, green)
    ensures var t := ExitAll(s, ps);
      && Flipping(t, blue, green) && Ordered(t.log, blue, green) && Waited(s, t)
      && (Going(s, blue, green) ==> Going(t, blue, green))
      && (forall e :: e in s.log ==> e in t.log) && (forall e :: e in t.log && !Mild(e) ==> e in s.log)
  {
    var t := ExitAll(s, ps);
    ExitAllWaited(s, ps);
    WaitedFlipping(s, t, blue, green);
    MildOrdered(s.log, t.log, blue, green);
    MildMembers(s.log, t.log);
  }

  /** One more effect in the trace. */
  lemma LogKeeps(s: State, e: Effect, blue: Proc, green: Proc)
    requires Flipping(s, blue, green) && Ordered(s.log, blue, green) && Permitted(s.log, e, blue, green)
    ensures Flipping(Logged(s, e), blue, green) && Ordered(Logged(s, e).log, blue, green)
  {
    OrderedStep(s.log, e, blue, green);
  }

  // ---- up to the commit -----------------------------------------------------------------------------------

  /** A stretch of the flip that decides nothing. */
  ghost predicate Moved(s: State, t: State, blue: Proc, green: Proc) {
    && Flipping(t, blue, green) && Ordered(t.log, blue, green)
    && t.reviving == s.reviving && t.next == s.next && t.retired == s.retired && t.running <= s.running
    && (forall e :: e in s.log ==> e in t.log)
    && (forall e :: e in t.log && !Mild(e) ==> e in s.log)
  }

  lemma MovedGoing(s: State, t: State, blue: Proc, green: Proc)
    requires Moved(s, t, blue, green) && Undecided(s.log, green)
    ensures Going(t, blue, green)
  {
  }

  lemma WaitMoved(s: State, ps: seq<Proc>, blue: Proc, green: Proc)
    requires Flipping(s, blue, green) && Ordered(s.log, blue, green)
    ensures Moved(s, ExitAll(s, ps), blue, green)
    ensures ExitAll(s, ps).protocol == s.protocol && ExitAll(s, ps).running == s.running - ExitSet(ps)
  {
    WaitKeeps(s, ps, blue, green);
    ExitAllWaited(s, ps);
  }

  lemma MildLogged(s: State, t: State, e: Effect, blue: Proc, green: Proc)
    requires Moved(s, t, blue, green) && Mild(e)
    ensures Moved(s, Logged(t, e), blue, green) && e in Logged(t, e).log
  {
    LogKeeps(t, e, blue, green);
  }

  lemma BeginFlipping(s: State, protocol: Protocol, blue: Proc, green: Proc)
    requires Flipping(s, blue, green) && (protocol.owner.Some? ==> protocol.owner.value < s.next)
    ensures Flipping(s.(protocol := protocol), blue, green)
  {
  }

  lemma OwnMoved(s: State, p: Proc, active: bool, a: Answer, blue: Proc, green: Proc)
    requires Flipping(s, blue, green) && Ordered(s.log, blue, green) && p < s.next
    ensures var (t, ok) := Own(s, p, active, a);
      && Moved(s, t, blue, green)
      && (ok ==> p in t.running && (if active then Activated(p) else Paused(p)) in t.log)
      && (ok && active ==> t.protocol.owner == Some(p))
  {
    var (protocol, command) := Begin(s.protocol, p, active, a.requestId, ExitedSet(s));
    var begun := s.(protocol := protocol);
    BeginFlipping(s, protocol, blue, green);
    if command.Some? && a.sent {
      WaitMoved(begun, a.exits, blue, green);
      var t := ExitAll(begun, a.exits);
      var (settled, ok) := Settle(protocol, p, command.value, Heard(t, p, a));
      hide Flipping, Ordered;
      BeginFlipping(t, settled, blue, green);
      if ok { MildLogged(s, t.(protocol := settled), if active then Activated(p) else Paused(p), blue, green); }
    }
  }

  /** A command and its answer: only the command itself is news that an order rule speaks about. */
  lemma SendMoved(s: State, p: Proc, a: Answer, command: Effect, answer: Effect, blue: Proc, green: Proc)
    requires Flipping(s, blue, green) && Ordered(s.log, blue, green) && Permitted(s.log, command, blue, green)
    requires forall past :: command in past ==> Permitted(past, answer, blue, green)
    ensures var (t, ok) := SendAndWait(s, p, a, command, answer);
      && Flipping(t, blue, green) && Ordered(t.log, blue, green)
      && t.reviving == s.reviving && t.next == s.next && t.retired == s.retired && t.running <= s.running
      && t.protocol == s.protocol
      && (forall e :: e in s.log ==> e in t.log)
      && (forall e :: e in t.log && !Mild(e) ==> e in s.log || e == command || e == answer)
      && (ok ==> a.sent && p in t.running && command in t.log && answer in t.log)
  {
    if a.sent {
      LogKeeps(s, command, blue, green);
      WaitMoved(Logged(s, command), a.exits, blue, green);
      var (t, ok) := WaitFrom(Logged(s, command), p, a);
      if ok { LogKeeps(t, answer, blue, green); }
    }
  }

  /** What is known before step k of the flip, all earlier ones having succeeded. */
  ghost predicate Reached(s: State, blue: Proc, green: Proc, k: nat) {
    && Going(s, blue, green)
    && (k == 3 ==> Paused(blue) in s.log)
    && (k >= 4 ==> Released(blue) in s.log)
    && (k >= 5 ==> Promoted(green) in s.log)
    && (k == 6 ==> green in s.running && s.protocol.owner == Some(green) && Activated(green) in s.log)
  }

  lemma StepReached(s: State, k: nat, blue: Proc, green: Proc, a: Answer)
    requires k < |FLIP| && Reached(s, blue, green, k)
    ensures var (t, ok) := FlipStep(s, FLIP[k], blue, green, a);
      && Going(t, blue, green) && t.reviving == s.reviving && t.next == s.next && t.retired == s.retired
      && (ok ==> Reached(t, blue, green, k + 1))
      && (k != PROMOTION && PromoteSent(green) !in s.log ==> PromoteSent(green) !in t.log)
  {
    hide Flipping, Ordered, Own, SendAndWait;
    if k < 2 {
      WaitMoved(s, a.exits, blue, green);
      MovedGoing(s, ExitAll(s, a.exits), blue, green);
    } else if k == 2 || k == 5 {
      OwnStep(s, if k == 2 then blue else green, k == 5, a, blue, green);
    } else if k == 3 {
      SendMoved(s, blue, a, DrainSent(blue), Released(blue), blue, green);
    } else {
      SendMoved(s, green, a, PromoteSent(green), Promoted(green), blue, green);
    }
  }

  lemma OwnStep(s: State, p: Proc, active: bool, a: Answer, blue: Proc, green: Proc)
    requires Going(s, blue, green) && p in {blue, green}
    ensures var (t, ok) := Own(s, p, active, a);
      && Going(t, blue, green) && t.reviving == s.reviving && t.next == s.next && t.retired == s.retired
      && (forall e :: e in s.log ==> e in t.log) && (forall e :: e in t.log && !Mild(e) ==> e in s.log)
      && (ok ==> p in t.running && (if active then Activated(p) else Paused(p)) in t.log)
      && (ok && active ==> t.protocol.owner == Some(p))
  {
    OwnMoved(s, p, active, a, blue, green);
    MovedGoing(s, Own(s, p, active, a).0, blue, green);
  }

  /** The flip up to the commit gate: undecided all along; promote is sent only in its own step. */
  lemma {:induction false} FlipReached(s: State, env: Script, blue: Proc, green: Proc, steps: nat)
    requires steps <= |FLIP| && Reached(s, blue, green, 0) && PromoteSent(green) !in s.log
    ensures var f := Flip(s, env, blue, green, steps);
      && Going(f.s, blue, green) && f.s.reviving == s.reviving && f.s.next == s.next && f.s.retired == s.retired
      && (f.passed == steps ==> Reached(f.s, blue, green, steps))
      && (f.passed < PROMOTION && (steps <= PROMOTION || f.passed < steps) ==> PromoteSent(green) !in f.s.log)
  {
    if steps > 0 {
      FlipReached(s, env, blue, green, steps - 1);
      var f := Flip(s, env, blue, green, steps - 1);
      hide Reached, Going, FlipStep;
      if f.passed == steps - 1 {
        StepReached(f.s, steps - 1, blue, green, env(FLIP[steps - 1]));
      }
    }
  }

  // ---- after the commit ------------------------------------------------------------------------------------

  lemma CommitKeeps(s: State, blue: Proc, green: Proc, a: Answer)
    requires Reached(s, blue, green, |FLIP|) && green !in s.retired
    ensures var (t, ok) := Commit(s, blue, green, a);
      && Valid(t) && t.live == Some(green) && !t.owed && !t.poisoned && t.protocol.owner == Some(green)
      && Ordered(t.log, blue, green) && NoRollbackAfterCommit(t.log, green) && Committed in t.log
      && (ok <==> a.sent) && (blue in t.retired <==> ok)
      && (RetireSent(blue) in t.log <==> ok) && PostFlipFailure !in t.log
  {
    assert RetireSent(blue) !in s.log && PostFlipFailure !in s.log;
    hide Ordered, NoRollbackAfterCommit, Undecided;
    CommitTrace(s.log, blue, green);
  }

  lemma CommitTrace(log: seq<Effect>, blue: Proc, green: Proc)
    requires Undecided(log, green) && Ordered(log, blue, green) && Promoted(green) in log && Activated(green) in log
    ensures var committed := log + [Committed]; var retired := committed + [RetireSent(blue)];
      && Ordered(committed, blue, green) && NoRollbackAfterCommit(committed, green) && Committed in committed
      && Ordered(retired, blue, green) && NoRollbackAfterCommit(retired, green) && Committed in retired
  {
    OrderedStep(log, Committed, blue, green);
    OrderedStep(log + [Committed], RetireSent(blue), blue, green);
  }

  lemma AfterCommitKeeps(s: State, env: Script, blue: Proc, green: Proc, at: Answer)
    requires Valid(s) && Ordered(s.log, blue, green) && NoRollbackAfterCommit(s.log, green) && Committed in s.log
    ensures var (t, outcome) := HandleFailure(s, env, blue, green, true, true, at);
      && outcome == GreenLive && t == s.(log := t.log) && t.log == s.log + [PostFlipFailure]
      && Ordered(t.log, blue, green) && NoRollbackAfterCommit(t.log, green) && Committed in t.log
  {
    OrderedStep(s.log, PostFlipFailure, blue, green);
  }

  // ---- rolling back --------------------------------------------------------------------------------------------

  lemma KillBacks(s: State, blue: Proc, green: Proc)
    requires Going(s, blue, green)
    ensures Backing(Kill(s, green), blue, green)
    ensures forall e :: e in Kill(s, green).log ==> e == Killed(green) || e in s.log
  {
    OrderedStep(s.log, Killed(green), blue, green);
  }

  lemma WaitBacks(s: State, ps: seq<Proc>, blue: Proc, green: Proc)
    requires Backing(s, blue, green)
    ensures var t := ExitAll(s, ps);
      && Backing(t, blue, green) && t.reviving == s.reviving
      && (forall e :: e in s.log ==> e in t.log) && (forall e :: e in t.log && !Mild(e) ==> e in s.log)
  {
    WaitMoved(s, ps, blue, green);
  }

  lemma GoneSeen(log: seq<Effect>, green: Proc)
    requires Exited(green) in log
    ensures GreenGone(log + [PortFree], green)
  {
    var k :| 0 <= k < |log| && log[k] == Exited(green);
    var all := log + [PortFree];
    assert all[k] == Exited(green) && all[|log|] == PortFree;
  }

  lemma ConfirmBacks(s: State, env: Script, blue: Proc, green: Proc)
    requires Backing(s, blue, green)
    ensures var (t, ok) := ConfirmGone(s, env, green);
      && Backing(t, blue, green) && t.reviving == s.reviving
      && (ok ==> GreenGone(t.log, green))
  {
    var t := ExitAll(s, env(GreenExit).exits);
    WaitBacks(s, env(GreenExit).exits, blue, green);
    if green !in t.running {
      var u := ExitAll(t, env(PortReleased).exits);
      WaitBacks(t, env(PortReleased).exits, blue, green);
      GoneSeen(u.log, green);
      LogKeeps(u, PortFree, blue, green);
    }
  }

  lemma RebindBacks(s: State, env: Script, blue: Proc, green: Proc)
    requires Backing(s, blue, green) && GreenGone(s.log, green)
    ensures var (t, ok) := Rebind(s, env, blue);
      && Backing(t, blue, green) && t.reviving == s.reviving && (ok ==> RebindAcked(blue) in t.log)
  {
    if blue in s.running { SendMoved(s, blue, env(BlueRebound), RebindSent(blue), RebindAcked(blue), blue, green); }
  }

  lemma {:induction false} ResumeBacks(s: State, env: Script, blue: Proc, green: Proc, attempt: nat)
    requires attempt < RESUME_ATTEMPTS && Backing(s, blue, green) && RebindAcked(blue) in s.log
    ensures var (t, ok) := Resume(s, env, blue, attempt);
      && Backing(t, blue, green) && t.reviving == s.reviving && RebindAcked(blue) in t.log
      && (ok ==> blue in t.running && t.protocol.owner == Some(blue) && Activated(blue) in t.log)
    decreases RESUME_ATTEMPTS - attempt
  {
    if blue in s.running {
      ResumeTry(s, env(BlueResumed(attempt)), blue, green);
      var (t, ok) := Own(s, blue, true, env(BlueResumed(attempt)));
      hide Backing, Own;
      if !ok && attempt + 1 < RESUME_ATTEMPTS {
        WaitBacks(t, env(ResumeDelay(attempt)).exits, blue, green);
        ResumeBacks(ExitAll(t, env(ResumeDelay(attempt)).exits), env, blue, green, attempt + 1);
      }
    }
  }

  lemma ResumeTry(s: State, a: Answer, blue: Proc, green: Proc)
    requires Backing(s, blue, green) && RebindAcked(blue) in s.log
    ensures var (t, ok) := Own(s, blue, true, a);
      && Backing(t, blue, green) && t.reviving == s.reviving && RebindAcked(blue) in t.log
      && (ok ==> blue in t.running && t.protocol.owner == Some(blue) && Activated(blue) in t.log)
  {
    OwnMoved(s, blue, true, a, blue, green);
  }

  /** A rollback never commits; if it succeeds blue runs, has rebound and owns the backups again. */
  lemma RollbackBacks(s: State, env: Script, blue: Proc, green: Proc, greenMayOwn: bool)
    requires Going(s, blue, green) && (PromoteSent(green) in s.log ==> greenMayOwn)
    ensures var (t, ok) := Rollback(s, env, blue, green, greenMayOwn);
      && Backing(t, blue, green) && t.reviving == s.reviving
      && (ok ==> blue in t.running && t.protocol.owner == Some(blue) && RebindAcked(blue) in t.log && Activated(blue) in t.log)
  {
    KillBacks(s, blue, green);
    var k := Kill(s, green);
    hide Flipping, Ordered, Rebind, Resume, ConfirmGone;
    if greenMayOwn { ConfirmBacks(k, env, blue, green); }
    var (c, gone) := if greenMayOwn then ConfirmGone(k, env, green) else (k, true);
    if gone {
      RebindBacks(c, env, blue, green);
      var (r, rebound) := Rebind(c, env, blue);
      if rebound { ResumeBacks(r, env, blue, green, 0); }
    }
  }

  lemma AbandonKeeps(s: State, env: Script, blue: Proc, green: Proc)
    requires Backing(s, blue, green)
    ensures var t := Abandon(s, env, blue);
      && Valid(t) && t.live == None && t.owed && !t.poisoned && t.inFlight && t.reviving == s.reviving
      && Committed !in t.log && Ordered(t.log, blue, green)
      && Killed(blue) in t.log && Killed(green) in t.log && {blue, green} <= t.retired
  {
    var k := Kill(s.(live := None, owed := true), blue);
    OrderedStep(s.log, Killed(blue), blue, green);
    ExitAllWaited(k, env(BlueExit).exits);
    var t := ExitAll(k, env(BlueExit).exits);
    MildOrdered(k.log, t.log, blue, green);
    MildMembers(k.log, t.log);
  }

  // ---- recovery --------------------------------------------------------------------------------------------------

  /** Latched: nothing is live. */
  ghost predicate Down(s: State, blue: Proc, green: Proc) {
    && Valid(s) && s.inFlight && s.poisoned && s.live == None && blue < s.next && green < s.next
    && Committed !in s.log && Ordered(s.log, blue, green)
    && KilledAll in s.log && {blue, green} <= s.retired
  }

  lemma WaitDown(s: State, ps: seq<Proc>, blue: Proc, green: Proc)
    requires Down(s, blue, green)
    ensures var t := ExitAll(s, ps);
      && Down(t, blue, green) && t.reviving == s.reviving && t.next == s.next
      && t.protocol == s.protocol && t.running == s.running - ExitSet(ps) && t.retired == s.retired
  {
    ExitAllWaited(s, ps);
    var t := ExitAll(s, ps);
    MildOrdered(s.log, t.log, blue, green);
    MildMembers(s.log, t.log);
  }

  lemma OwnDown(s: State, p: Proc, a: Answer, blue: Proc, green: Proc)
    requires Down(s, blue, green) && p < s.next
    ensures var (t, ok) := Own(s, p, true, a);
      && Down(t, blue, green) && t.reviving == s.reviving && t.next == s.next && t.retired == s.retired
      && (ok ==> p in t.running && t.protocol.owner == Some(p))
  {
    var (protocol, command) := Begin(s.protocol, p, true, a.requestId, ExitedSet(s));
    var begun := s.(protocol := protocol);
    if command.Some? && a.sent {
      WaitDown(begun, a.exits, blue, green);
      var t := ExitAll(begun, a.exits);
      OrderedStep(t.log, Activated(p), blue, green);
    }
  }

  lemma BootDown(s: State, env: Script, newBlue: Proc, blue: Proc, green: Proc)
    requires Down(s, blue, green) && newBlue < s.next
    ensures var (t, up) := Boot(s, env, newBlue);
      && Down(t, blue, green) && t.reviving == s.reviving && t.next == s.next && t.retired == s.retired
      && (up ==> newBlue in t.running && t.protocol.owner == Some(newBlue))
  {
    WaitDown(s, env(FreshReady).exits, blue, green);
    var r := ExitAll(s, env(FreshReady).exits);
    WaitDown(r, env(FreshHealthy).exits, blue, green);
    OwnDown(ExitAll(r, env(FreshHealthy).exits), newBlue, env(FreshActivated), blue, green);
  }

  /** A recovery ends latched with nothing live, or with a fresh live blue that owns the backups. */
  ghost predicate Recovered(t: State, blue: Proc, green: Proc) {
    && Valid(t) && t.inFlight && Committed !in t.log && Ordered(t.log, blue, green)
    && KilledAll in t.log && {blue, green} <= t.retired
    && (t.poisoned ==> t.live == None)
    && (!t.poisoned ==> t.live.Some? && t.live.value !in {blue, green} && t.protocol.owner == t.live && !t.owed)
  }

  lemma RebootFails(t: State, env: Script, newBlue: Proc, blue: Proc, green: Proc)
    requires Down(t, blue, green) && newBlue < t.next
    ensures var u := ExitAll(Kill(t, newBlue), env(FreshExit).exits);
            Recovered(u, blue, green) && u.reviving == t.reviving
  {
    OrderedStep(t.log, Killed(newBlue), blue, green);
    WaitDown(Kill(t, newBlue), env(FreshExit).exits, blue, green);
  }

  lemma Spawned(s: State, blue: Proc, green: Proc)
    requires Down(s, blue, green)
    ensures Down(s.(running := s.running + {s.next}, next := s.next + 1), blue, green)
  {
  }

  lemma RebootKeeps(s: State, env: Script, blue: Proc, green: Proc)
    requires Down(s, blue, green)
    ensures Recovered(Reboot(s, env), blue, green) && Reboot(s, env).reviving == s.reviving
  {
    if env(WorkerSpawned).arrives {
      var newBlue := s.next;
      var spawned := s.(running := s.running + {newBlue}, next := newBlue + 1);
      Spawned(s, blue, green);
      BootDown(spawned, env, newBlue, blue, green);
      var (t, up) := Boot(spawned, env, newBlue);
      hide Boot, Ordered;
      if !up { RebootFails(t, env, newBlue, blue, green); } else { RebootSucceeds(s, t, newBlue, blue, green); }
    }
  }

  lemma RebootSucceeds(s: State, t: State, newBlue: Proc, blue: Proc, green: Proc)
    requires Down(s, blue, green) && Down(t, blue, green) && newBlue == s.next && t.retired == s.retired
    requires newBlue in t.running && t.protocol.owner == Some(newBlue)
    ensures Recovered(t.(live := Some(newBlue), owed := false, poisoned := false), blue, green)
  {
  }

  lemma LatchDown(s: State, blue: Proc, green: Proc)
    requires Going(s, blue, green)
    ensures Down(Latch(s, blue, green), blue, green)
  {
    OrderedStep(s.log, KilledAll, blue, green);
  }

  lemma PoisonKeeps(s: State, env: Script, policy: Policy, blue: Proc, green: Proc)
    requires Going(s, blue, green)
    ensures Recovered(Poison(s, env, policy, blue, green), blue, green)
    ensures Poison(s, env, policy, blue, green).reviving == s.reviving
  {
    LatchDown(s, blue, green);
    WaitDown(Latch(s, blue, green), env(VictimsExit).exits, blue, green);
    RebootKeeps(ExitAll(Latch(s, blue, green), env(VictimsExit).exits), env, blue, green);
  }

  // ---- theorems ---------------------------------------------------------------------------------------------------

  /** How the supervisor stands once a restart is over, and what it did to the hubs it gave up. */
  ghost predicate Ends(s: State, outcome: Outcome, blue: Proc, green: Proc) {
    match outcome
    case Ignored => false
    case GreenLive => s.live == Some(green) && s.protocol.owner == Some(green) && !s.poisoned
    case BlueRestored =>
      && s.live == Some(blue) && s.protocol.owner == Some(blue) && !s.poisoned
      && Killed(green) in s.log && green in s.retired
    case FreshBlueLive =>
      && s.live.Some? && s.live.value !in {blue, green} && s.protocol.owner == s.live && !s.poisoned
      && KilledAll in s.log && {blue, green} <= s.retired
    case RevivalPending =>
      && s.live == None && s.reviving && !s.poisoned
      && Killed(blue) in s.log && Killed(green) in s.log && {blue, green} <= s.retired
    case PoisonedOffline => s.live == None && s.poisoned && KilledAll in s.log && {blue, green} <= s.retired
  }

  /** The ends of a restart exclude each other. */
  lemma EndsExclusive(s: State, a: Outcome, b: Outcome, blue: Proc, green: Proc)
    requires blue != green && Ends(s, a, blue, green) && Ends(s, b, blue, green)
    ensures a == b
  {
  }

  lemma FailureEnds(s: State, env: Script, blue: Proc, green: Proc, greenMayOwn: bool, at: Answer)
    requires Going(s, blue, green) && (PromoteSent(green) in s.log ==> greenMayOwn)
    ensures var (t, outcome) := HandleFailure(s, env, blue, green, false, greenMayOwn, at);
      && Valid(t) && Ends(Finish(t), outcome, blue, green) && !outcome.GreenLive?
      && Committed !in t.log && Ordered(t.log, blue, green)
      && (outcome.BlueRestored? ==> RebindAcked(blue) in t.log)
  {
    var policy := RecoveryPolicy(Cause(at), green !in s.running && at.exit78);
    hide Ordered, Poison, Rollback, Abandon;
    if !policy.Ordinary? {
      PoisonKeeps(s, env, policy, blue, green);
    } else {
      RollbackBacks(s, env, blue, green, greenMayOwn);
      var (t, restored) := Rollback(s, env, blue, green, greenMayOwn);
      if !restored { AbandonKeeps(t, env, blue, green); }
    }
  }

  lemma BegunReached(s: State)
    requires Valid(s) && !Refuses(s)
    ensures Reached(Begun(s), s.live.value, s.next, 0) && PromoteSent(s.next) !in Begun(s).log
  {
  }

  /**
   A restart, whatever its surroundings answer: it leaves the supervisor in the one state its outcome
   names; each hand-off step was permitted by what happened before it; and after the commit, even if
   the retirement of blue fails, green is neither killed nor is blue told to rebind.
  */
  lemma RestartEnds(s: State, env: Script)
    requires Valid(s)
    ensures var (t, outcome) := Restart(s, env);
      && Valid(t)
      && (outcome.Ignored? <==> Refuses(s)) && (outcome.Ignored? ==> t == s)
      && (!outcome.Ignored? ==>
            var blue, green := s.live.value, s.next;
            && Ends(t, outcome, blue, green) && !t.inFlight
            && Ordered(t.log, blue, green) && NoRollbackAfterCommit(t.log, green)
            && (outcome.GreenLive? <==> Committed in t.log)
            && (outcome.BlueRestored? ==> RebindAcked(blue) in t.log))
  {
    if !Refuses(s) {
      var blue, green := s.live.value, s.next;
      BegunReached(s);
      FlipReached(Begun(s), env, blue, green, |FLIP|);
      var f := Flip(Begun(s), env, blue, green, |FLIP|);
      hide Ordered, Flip, HandleFailure, Commit, Going, Begun, Valid, Ends, NoRollbackAfterCommit;
      if f.passed == |FLIP| {
        CommitEnds(s, f.s, env);
      } else {
        FailureEnds(f.s, env, blue, green, f.passed >= PROMOTION, env(FLIP[f.passed]));
        FinishKeeps(HandleFailure(f.s, env, blue, green, false, f.passed >= PROMOTION, env(FLIP[f.passed])).0);
        NothingCommitted(s, env, f);
      }
    }
  }

  lemma FinishKeeps(t: State)
    requires Valid(t)
    ensures Valid(Finish(t)) && Finish(t).log == t.log && !Finish(t).inFlight
  {
  }

  lemma NothingCommitted(s: State, env: Script, f: Flow)
    requires !Refuses(s) && f == Flip(Begun(s), env, s.live.value, s.next, |FLIP|) && f.passed < |FLIP|
    requires Committed !in Restart(s, env).0.log
    ensures NoRollbackAfterCommit(Restart(s, env).0.log, s.next)
  {
  }

  /** After all steps of the flip, the restart ends with green live, whether or not blue's retirement is sent. */
  lemma CommitEnds(s: State, t: State, env: Script)
    requires !Refuses(s) && Reached(t, s.live.value, s.next, |FLIP|) && s.next !in t.retired
    ensures var (c, clean) := Commit(t, s.live.value, s.next, env(BlueRetired));
            var u := Finish(if clean then c else HandleFailure(c, env, s.live.value, s.next, true, true, env(BlueRetired)).0);
      && Valid(u) && Ends(u, GreenLive, s.live.value, s.next) && !u.inFlight
      && Ordered(u.log, s.live.value, s.next) && NoRollbackAfterCommit(u.log, s.next) && Committed in u.log
      && HandleFailure(c, env, s.live.value, s.next, true, true, env(BlueRetired)).1 == GreenLive
  {
    hide Ordered, Commit, HandleFailure, Reached, NoRollbackAfterCommit;
    CommitKeeps(t, s.live.value, s.next, env(BlueRetired));
    AfterCommitKeeps(Commit(t, s.live.value, s.next, env(BlueRetired)).0, env, s.live.value, s.next, env(BlueRetired));
  }
}
