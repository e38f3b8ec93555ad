/**
 Which way a restart ends, read off the script alone: when it commits, when it is rolled back or
 poisoned, and exactly when automatic recovery puts a fresh hub live before the restart returns.
*/
module HubFlipOutcomes {
  import opened Prelude
  import opened BackupOwnership
  import opened HubFlip
  import opened HubFlipLaws

  /** The children that exit during the first k awaits of the flip. */
  function Gone(env: Script, k: nat): set<Proc>
    requires k <= |FLIP|
  {
    if k == 0 then {} else Gone(env, k - 1) + ExitSet(env(FLIP[k - 1]).exits)
  }

  /** An ownership command goes out and is acknowledged as applied, in time and under its own epoch. */
  predicate Acked(a: Answer, epoch: nat, active: bool) {
    && a.sent && a.arrives && a.ack.Some?
    && var ack := a.ack.value;
    && ack.requestId == a.requestId && ack.epoch == epoch && !ack.error && ack.applied && ack.active == active
  }

  /** No other living process owns the backups when blue is asked to pause. */
  predicate OwnerFree(s: State, env: Script)
    requires !Refuses(s)
  {
    var owner := s.protocol.owner;
    owner.None? || owner == s.live || owner.value !in s.running || owner.value in Gone(env, 2)
  }

  /** The script grants step k of the flip, if the flip gets there. */
  predicate Granted(s: State, env: Script, k: nat)
    requires !Refuses(s) && k < |FLIP|
  {
    var blue, green, a := s.live.value, s.next, env(FLIP[k]);
    match FLIP[k]
    case GreenReady => a.arrives && green !in Gone(env, 1)
    case GreenHealthy => a.arrives
    case BluePaused => OwnerFree(s, env) && Acked(a, s.protocol.epoch + 1, false) && blue !in Gone(env, 3)
    case BlueReleased => a.sent && a.arrives && blue !in Gone(env, 4)
    case GreenPromoted => a.sent && a.arrives && green !in Gone(env, 5)
    case _ => Acked(a, s.protocol.epoch + 2, true) && green !in Gone(env, 6)
  }

  /** The first step that is not granted, or the number of steps. */
  function FirstMiss(s: State, env: Script, k: nat): (m: nat)
    requires !Refuses(s) && k <= |FLIP|
    ensures k <= m <= |FLIP|
    ensures forall j :: k <= j < m ==> Granted(s, env, j)
    ensures m < |FLIP| ==> !Granted(s, env, m)
    decreases |FLIP| - k
  {
    if k == |FLIP| || !Granted(s, env, k) then k else FirstMiss(s, env, k + 1)
  }

  /** The failing step reaches its await: the send before it did not throw, nor was it refused. */
  predicate AwaitsIn(s: State, env: Script, m: nat)
    requires !Refuses(s) && m < |FLIP|
  {
    m < 2 || (env(FLIP[m]).sent && (m == 2 ==> OwnerFree(s, env)))
  }

  /** Everyone who has exited when step m fails. */
  function GoneAt(s: State, env: Script, m: nat): set<Proc>
    requires !Refuses(s) && m < |FLIP|
  {
    if AwaitsIn(s, env, m) then Gone(env, m + 1) else Gone(env, m)
  }

  /** Ownership commands issued when step m fails. */
  function Issued(s: State, env: Script, m: nat): nat
    requires !Refuses(s) && m < |FLIP|
  {
    if m < 2 then 0 else if m == 2 then (if OwnerFree(s, env) then 1 else 0) else if m < 5 then 1 else 2
  }

  function PolicyAt(s: State, env: Script, m: nat): Policy
    requires !Refuses(s) && m < |FLIP|
  {
    var a := env(FLIP[m]);
    RecoveryPolicy(Cause(a), s.next in GoneAt(s, env, m) && a.exit78)
  }

  /**
   The script lets automatic recovery succeed after step m fails: every child exits and so does the
   worker, the port is released, the classifier allows it, a fresh worker comes up and stays, and the
   fresh hub is ready, healthy and acknowledges its activation without exiting.
  */
  predicate RecoveryGranted(s: State, env: Script, m: nat)
    requires !Refuses(s) && m < |FLIP|
  {
    var newBlue := s.next + 1;
    && s.running + {s.next} <= GoneAt(s, env, m) + ExitSet(env(VictimsExit).exits)
    && env(VictimsExit).arrives && env(RecoveryPort).arrives && env(Classified).arrives && env(WorkerSpawned).arrives
    && env(FreshReady).arrives && env(FreshHealthy).arrives
    && Acked(env(FreshActivated), s.protocol.epoch + Issued(s, env, m) + 1, true)
    && newBlue !in ExitSet(env(FreshReady).exits + env(FreshHealthy).exits + env(FreshActivated).exits)
    && env(WorkerStays).arrives
  }

  // ---- the flip along the script ---------------------------------------------------------------------------

  /** Where the flip stands before step k if all earlier ones were granted. */
  ghost predicate Along(s: State, env: Script, t: State, k: nat)
    requires !Refuses(s) && k <= |FLIP|
  {
    && Valid(t) && Valid(s)
    && t.next == s.next + 1 && t.running == s.running + {s.next} - Gone(env, k)
    && t.protocol.epoch == s.protocol.epoch + (if k <= 2 then 0 else if k <= 5 then 1 else 2)
    && (k <= 2 ==> t.protocol.owner == s.protocol.owner)
    && t.live in {None, s.live}
    && (3 <= k <= 5 ==> t.protocol.owner == None)
  }

  lemma WaitAlong(t: State, ps: seq<Proc>)
    requires Valid(t)
    ensures var u := ExitAll(t, ps);
            && Valid(u) && u.protocol == t.protocol && u.next == t.next && u.running == t.running - ExitSet(ps)
            && u.live in {None, t.live}
  {
    ExitAllWaited(t, ps);
  }

  lemma SendAlong(t: State, p: Proc, a: Answer, command: Effect, answer: Effect)
    requires Valid(t)
    ensures var (u, ok) := SendAndWait(t, p, a, command, answer);
      && Valid(u) && u.protocol == t.protocol && u.next == t.next && u.live in {None, t.live}
      && u.running == (if a.sent then t.running - ExitSet(a.exits) else t.running)
      && (ok <==> a.sent && a.arrives && p in t.running - ExitSet(a.exits))
  {
    if a.sent { WaitAlong(Logged(t, command), a.exits); }
  }

  /** An ownership call of a process the supervisor knows. */
  lemma OwnAlong(t: State, p: Proc, active: bool, a: Answer)
    requires Valid(t) && p < t.next
    ensures var (u, ok) := Own(t, p, active, a);
      var free := t.protocol.owner.None? || t.protocol.owner == Some(p) || t.protocol.owner.value !in t.running;
      && Valid(u) && u.next == t.next && u.live in {None, t.live}
      && u.running == (if free && a.sent then t.running - ExitSet(a.exits) else t.running)
      && u.protocol.epoch == t.protocol.epoch + (if free then 1 else 0)
      && (ok <==> free && Acked(a, t.protocol.epoch + 1, active) && p in t.running - ExitSet(a.exits))
      && (ok && !active ==> u.protocol.owner == None)
      && (free && active ==> u.protocol.owner == Some(p))
      && u.protocol.owner in {t.protocol.owner, None, Some(p)}
  {
    var (protocol, command) := Begin(t.protocol, p, active, a.requestId, ExitedSet(t));
    var begun := t.(protocol := protocol);
    if command.Some? && a.sent { WaitAlong(begun, a.exits); }
  }

  lemma BlueGreenDiffer(s: State)
    requires Valid(s) && !Refuses(s)
    ensures s.live.value != s.next && s.live.value in s.running && s.next !in s.running
  {
  }

  lemma StepAlong(s: State, env: Script, t: State, k: nat)
    requires !Refuses(s) && k < |FLIP| && Along(s, env, t, k)
    ensures var (u, ok) := FlipStep(t, FLIP[k], s.live.value, s.next, env(FLIP[k]));
      && (ok <==> Granted(s, env, k))
      && (ok ==> Along(s, env, u, k + 1))
      && Valid(u) && u.next == s.next + 1 && u.live in {None, s.live}
      && u.running == s.running + {s.next} - GoneAt(s, env, k)
      && u.protocol.epoch == s.protocol.epoch + Issued(s, env, k)
      && (s.protocol.owner == s.live ==> u.protocol.owner in {None, s.live} || (k == 5 && u.protocol.owner == Some(s.next)))
  {
    BlueGreenDiffer(s);
    var blue, green, a := s.live.value, s.next, env(FLIP[k]);
    hide Valid, Own, SendAndWait, Acked, ExitSet, ExitAll;
    if k < 2 {
      WaitAlong(t, a.exits);
    } else if k == 2 {
      PauseAlong(s, env, t);
    } else if k == 5 {
      KnownProcs(s, env, t, k);
      OwnAlong(t, green, true, a);
    } else {
      SendAlong(t, if k == 3 then blue else green, a, if k == 3 then DrainSent(blue) else PromoteSent(green),
                if k == 3 then Released(blue) else Promoted(green));
    }
  }

  lemma KnownProcs(s: State, env: Script, t: State, k: nat)
    requires !Refuses(s) && k <= |FLIP| && Along(s, env, t, k)
    ensures s.live.value < t.next && s.next < t.next
  {
  }

  lemma PauseAlong(s: State, env: Script, t: State)
    requires !Refuses(s) && Along(s, env, t, 2)
    ensures var (u, ok) := FlipStep(t, FLIP[2], s.live.value, s.next, env(FLIP[2]));
      && (ok <==> Granted(s, env, 2))
      && (ok ==> Along(s, env, u, 3))
      && Valid(u) && u.next == s.next + 1 && u.live in {None, s.live}
      && u.running == s.running + {s.next} - GoneAt(s, env, 2)
      && u.protocol.epoch == s.protocol.epoch + Issued(s, env, 2)
      && (s.protocol.owner == s.live ==> u.protocol.owner in {None, s.live})
  {
    BlueGreenDiffer(s);
    KnownProcs(s, env, t, 2);
    OwnAlong(t, s.live.value, false, env(FLIP[2]));
    assert s.protocol.owner.Some? ==> s.protocol.owner.value != s.next;
    hide Own, Acked, ExitSet;
  }

  lemma {:induction false} FlipAlong(s: State, env: Script, k: nat)
    requires Valid(s) && !Refuses(s) && k <= |FLIP|
    ensures var f, m := Flip(Begun(s), env, s.live.value, s.next, k), FirstMiss(s, env, 0);
      && f.passed == (if k <= m then k else m)
      && (k <= m ==> Along(s, env, f.s, k))
      && (m < k ==> && Valid(f.s) && f.s.next == s.next + 1
                    && f.s.running == s.running + {s.next} - GoneAt(s, env, m)
                    && f.s.protocol.epoch == s.protocol.epoch + Issued(s, env, m)
                    && f.s.live in {None, s.live}
                    && (s.protocol.owner == s.live ==>
                          f.s.protocol.owner in {None, s.live} || (m == 5 && f.s.protocol.owner == Some(s.next))))
  {
    if k > 0 {
      FlipAlong(s, env, k - 1);
      var f, m := Flip(Begun(s), env, s.live.value, s.next, k - 1), FirstMiss(s, env, 0);
      hide FlipStep, Along, Granted, Gone, GoneAt, Issued, FirstMiss, Valid;
      if k - 1 <= m { StepAlong(s, env, f.s, k - 1); }
    } else {
      BegunAlong(s, env);
    }
  }

  lemma BegunAlong(s: State, env: Script)
    requires Valid(s) && !Refuses(s)
    ensures Along(s, env, Begun(s), 0)
  {
  }

  // ---- recovery along the script ---------------------------------------------------------------------------

  lemma BootAlong(t: State, env: Script, newBlue: Proc)
    requires Valid(t) && newBlue < t.next && t.running == {newBlue}
    requires t.protocol.owner.Some? ==> t.protocol.owner.value != newBlue
    ensures Boot(t, env, newBlue).1 <==>
              && env(FreshReady).arrives && env(FreshHealthy).arrives
              && Acked(env(FreshActivated), t.protocol.epoch + 1, true)
              && newBlue !in ExitSet(env(FreshReady).exits + env(FreshHealthy).exits + env(FreshActivated).exits)
              && env(WorkerStays).arrives
  {
    hide Valid, Own, Acked;
    WaitAlong(t, env(FreshReady).exits);
    var r := ExitAll(t, env(FreshReady).exits);
    WaitAlong(r, env(FreshHealthy).exits);
    var h := ExitAll(r, env(FreshHealthy).exits);
    OwnAlong(h, newBlue, true, env(FreshActivated));
  }

  lemma RebootAlong(t: State, env: Script)
    requires Valid(t) && t.poisoned && t.running == {}
    ensures !Reboot(t, env).poisoned <==>
              && env(WorkerSpawned).arrives && env(FreshReady).arrives && env(FreshHealthy).arrives
              && Acked(env(FreshActivated), t.protocol.epoch + 1, true)
              && t.next !in ExitSet(env(FreshReady).exits + env(FreshHealthy).exits + env(FreshActivated).exits)
              && env(WorkerStays).arrives
  {
    if env(WorkerSpawned).arrives {
      var newBlue := t.next;
      var spawned := t.(running := t.running + {newBlue}, next := newBlue + 1);
      BootAlong(spawned, env, newBlue);
      BootPoisoned(spawned, env, newBlue);
      var (u, up) := Boot(spawned, env, newBlue);
      if !up { ExitAllPoisoned(Kill(u, newBlue), env(FreshExit).exits); }
    }
  }

  lemma {:induction false} ExitAllPoisoned(t: State, ps: seq<Proc>)
    ensures ExitAll(t, ps).poisoned == t.poisoned
  {
    if ps != [] { ExitAllPoisoned(t, ps[..|ps| - 1]); }
  }

  lemma BootPoisoned(t: State, env: Script, newBlue: Proc)
    ensures Boot(t, env, newBlue).0.poisoned == t.poisoned
  {
    hide ExitAll;
    ExitAllPoisoned(t, env(FreshReady).exits);
    var r := ExitAll(t, env(FreshReady).exits);
    ExitAllPoisoned(r, env(FreshHealthy).exits);
    var h := ExitAll(r, env(FreshHealthy).exits);
    var begun := h.(protocol := Begin(h.protocol, newBlue, true, env(FreshActivated).requestId, ExitedSet(h)).0);
    ExitAllPoisoned(begun, env(FreshActivated).exits);
  }

  lemma PoisonAlong(s: State, env: Script, t: State, m: nat, policy: Policy)
    requires Valid(s) && !Refuses(s) && m < |FLIP|
    requires Valid(t) && t.next == s.next + 1 && t.running == s.running + {s.next} - GoneAt(s, env, m)
    requires t.protocol.epoch == s.protocol.epoch + Issued(s, env, m)
    ensures !Poison(t, env, policy, s.live.value, s.next).poisoned <==> policy.Automatic? && RecoveryGranted(s, env, m)
  {
    var l := Latch(t, s.live.value, s.next);
    LatchValid(s, t);
    WaitAlong(l, env(VictimsExit).exits);
    ExitAllPoisoned(l, env(VictimsExit).exits);
    var u := ExitAll(l, env(VictimsExit).exits);
    hide Reboot, Acked, GoneAt, Issued, Valid, ExitAll, ExitSet;
    assert l.running == t.running;
    NobodyLeft(s.running + {s.next}, GoneAt(s, env, m), ExitSet(env(VictimsExit).exits));
    hide Latch;
    if u.running == {} { RebootAlong(u, env); }
  }

  lemma NobodyLeft(all: set<Proc>, gone: set<Proc>, leaving: set<Proc>)
    ensures all - gone - leaving == {} <==> all <= gone + leaving
  {
    if all <= gone + leaving { assert all - gone - leaving == {}; }
    if all - gone - leaving == {} {
      forall p | p in all ensures p in gone + leaving { assert p !in all - gone - leaving; }
    }
  }

  lemma LatchValid(s: State, t: State)
    requires Valid(s) && Valid(t) && !Refuses(s) && t.next == s.next + 1
    ensures Valid(Latch(t, s.live.value, s.next))
  {
  }

  // ---- theorems --------------------------------------------------------------------------------------------

  /** A failure before the commit: the policy decides between recovery and rollback. */
  lemma FailureOutcome(s: State, env: Script, t: State, m: nat)
    requires Valid(s) && !Refuses(s) && m < |FLIP|
    requires Valid(t) && t.next == s.next + 1 && t.running == s.running + {s.next} - GoneAt(s, env, m)
    requires t.protocol.epoch == s.protocol.epoch + Issued(s, env, m)
    ensures var outcome := HandleFailure(t, env, s.live.value, s.next, false, m >= PROMOTION, env(FLIP[m])).1;
      && (outcome == FreshBlueLive <==> PolicyAt(s, env, m).Automatic? && RecoveryGranted(s, env, m))
      && (outcome in {FreshBlueLive, PoisonedOffline} <==> !PolicyAt(s, env, m).Ordinary?)
      && outcome in {FreshBlueLive, PoisonedOffline, BlueRestored, RevivalPending}
  {
    var policy := PolicyAt(s, env, m);
    assert s.next !in t.running <==> s.next in GoneAt(s, env, m);
    PoisonAlong(s, env, t, m, policy);
    hide Poison, RecoveryGranted, GoneAt, Rollback, Abandon;
  }

  /**
   The outcome of every restart that is not refused, read off the script. It commits exactly if all six
   steps are granted. Otherwise the policy for the first step that fails decides: an ordinary failure is
   rolled back or given up for revival; any other ends offline, except that the restart ends with a
   fresh hub live exactly if the policy is automatic and the script grants the whole recovery.
  */
  lemma OutcomeDecided(s: State, env: Script)
    requires Valid(s) && !Refuses(s)
    ensures var m, outcome := FirstMiss(s, env, 0), Restart(s, env).1;
      && (outcome == GreenLive <==> m == |FLIP|)
      && (outcome == FreshBlueLive <==>
            m < |FLIP| && PolicyAt(s, env, m).Automatic? && RecoveryGranted(s, env, m))
      && (outcome in {FreshBlueLive, PoisonedOffline} <==> m < |FLIP| && !PolicyAt(s, env, m).Ordinary?)
      && (outcome in {BlueRestored, RevivalPending} <==> m < |FLIP| && PolicyAt(s, env, m).Ordinary?)
  {
    FlipAlong(s, env, |FLIP|);
    var f, m := Flip(Begun(s), env, s.live.value, s.next, |FLIP|), FirstMiss(s, env, 0);
    hide Flip, FirstMiss, Granted, RecoveryGranted, PolicyAt;
    if m < |FLIP| { FailureOutcome(s, env, f.s, m); }
  }

  /** A restart that commits retires blue exactly if the retirement could be sent; green stays live either way. */
  lemma RetirementFailureKeepsGreen(s: State, env: Script)
    requires Valid(s) && !Refuses(s) && Restart(s, env).1 == GreenLive
    ensures var t := Restart(s, env).0;
      && t.live == Some(s.next) && t.protocol.owner == Some(s.next) && s.next !in t.retired
      && (s.live.value in t.retired <==> env(BlueRetired).sent)
      && (RetireSent(s.live.value) in t.log <==> env(BlueRetired).sent)
      && (PostFlipFailure in t.log <==> !env(BlueRetired).sent)
  {
    OutcomeDecided(s, env);
    FlipAlong(s, env, |FLIP|);
    BegunReached(s);
    FlipReached(Begun(s), env, s.live.value, s.next, |FLIP|);
    RetirementOf(s, Flip(Begun(s), env, s.live.value, s.next, |FLIP|), env);
  }

  lemma RetirementOf(s: State, f: Flow, env: Script)
    requires Valid(s) && !Refuses(s) && f == Flip(Begun(s), env, s.live.value, s.next, |FLIP|) && f.passed == |FLIP|
    requires Reached(f.s, s.live.value, s.next, |FLIP|) && f.s.retired == s.retired
    ensures var t := Restart(s, env).0;
      && t.live == Some(s.next) && t.protocol.owner == Some(s.next) && s.next !in t.retired
      && (s.live.value in t.retired <==> env(BlueRetired).sent)
      && (RetireSent(s.live.value) in t.log <==> env(BlueRetired).sent)
      && (PostFlipFailure in t.log <==> !env(BlueRetired).sent)
  {
    CommitKeeps(f.s, s.live.value, s.next, env(BlueRetired));
    AfterCommitKeeps(Commit(f.s, s.live.value, s.next, env(BlueRetired)).0, env, s.live.value, s.next, env(BlueRetired));
    hide Flip, Reached, NoRollbackAfterCommit, Ordered;
  }

  /** What the policy is for each failure, by the code and the cause of a refusal and the exit code of the child. */
  lemma PolicyDecided(failure: Failure, exit78: bool)
    ensures RecoveryPolicy(failure, exit78) == Ordinary <==>
              (failure.Refused? && failure.refusal.code == "question-owner-activation-failed")
              || (failure.OtherFailure? && !exit78)
    ensures RecoveryPolicy(failure, exit78) == Automatic <==>
              || failure.MalformedRefusal?
              || (failure.OtherFailure? && exit78)
              || (failure.Refused? &&
                    (failure.refusal.code == "database-validation-unavailable"
                     || failure.refusal == Refusal("database-lineage-invalid", Some("lineage-rollback"))
                     || failure.refusal == Refusal("database-corrupt", Some("sqlite-corruption"))
                     || failure.refusal == Refusal("database-orphan-family", Some("orphan-family"))))
  {
    CodesDiffer();
  }

  lemma CodesDiffer()
    ensures "question-owner-activation-failed" != "database-validation-unavailable"
    ensures "question-owner-activation-failed" != "database-lineage-invalid"
    ensures "question-owner-activation-failed" != "database-corrupt"
    ensures "question-owner-activation-failed" != "database-orphan-family"
  {
    assert "question-owner-activation-failed"[0] == 'q';
    assert "database-validation-unavailable"[0] == 'd' && "database-lineage-invalid"[0] == 'd';
    assert "database-corrupt"[0] == 'd' && "database-orphan-family"[0] == 'd';
  }

  // ---- when blue is restored ----------------------------------------------------------------------------------

  /** Who is lost while blue is given its backups back, from one attempt to another, both included. */
  function Lost(env: Script, from: nat, to: nat): set<Proc>
    decreases to + 1 - from
  {
    if from > to then {}
    else
      (if env(BlueResumed(from)).sent then ExitSet(env(BlueResumed(from)).exits) else {})
      + (if from < to then ExitSet(env(ResumeDelay(from)).exits) else {}) + Lost(env, from + 1, to)
  }

  lemma AckedSent(a: Answer, epoch: nat, active: bool)
    requires Acked(a, epoch, active)
    ensures a.sent
  {
  }

  /** One of the four attempts is acknowledged while blue is still running. */
  ghost predicate Resumes(env: Script, blue: Proc, running: set<Proc>, epoch: nat, from: nat) {
    exists a :: from <= a < 4 && Acked(env(BlueResumed(a)), epoch + (a - from) + 1, true) && blue in running - Lost(env, from, a)
  }

  lemma ResumesStep(env: Script, blue: Proc, running: set<Proc>, epoch: nat, from: nat)
    requires from < 4
    ensures var sent := if env(BlueResumed(from)).sent then ExitSet(env(BlueResumed(from)).exits) else {};
            Resumes(env, blue, running, epoch, from) <==>
              (Acked(env(BlueResumed(from)), epoch + 1, true) && blue in running - sent)
              || (from < 3 && Resumes(env, blue, running - sent - ExitSet(env(ResumeDelay(from)).exits), epoch + 1, from + 1))
  {
    hide Acked, ExitSet;
    var sent := if env(BlueResumed(from)).sent then ExitSet(env(BlueResumed(from)).exits) else {};
    var later := running - sent - ExitSet(env(ResumeDelay(from)).exits);
    assert Lost(env, from, from) == sent;
    forall a | from < a < 4 ensures blue in running - Lost(env, from, a) <==> blue in later - Lost(env, from + 1, a) {}
    if a :| from <= a < 4 && Acked(env(BlueResumed(a)), epoch + (a - from) + 1, true) && blue in running - Lost(env, from, a) {
      if a > from { assert Acked(env(BlueResumed(a)), epoch + 1 + (a - (from + 1)) + 1, true); }
    }
    if Acked(env(BlueResumed(from)), epoch + 1, true) && blue in running - sent {
      assert Acked(env(BlueResumed(from)), epoch + (from - from) + 1, true) && blue in running - Lost(env, from, from);
    }
    if from < 3 && Resumes(env, blue, later, epoch + 1, from + 1) {
      var a :| from + 1 <= a < 4 && Acked(env(BlueResumed(a)), epoch + 1 + (a - (from + 1)) + 1, true)
               && blue in later - Lost(env, from + 1, a);
      assert Acked(env(BlueResumed(a)), epoch + (a - from) + 1, true) && blue in running - Lost(env, from, a);
    }
  }

  lemma NotRunningNeverResumes(env: Script, blue: Proc, running: set<Proc>, epoch: nat, from: nat)
    requires blue !in running
    ensures !Resumes(env, blue, running, epoch, from)
  {
  }

  lemma {:induction false} ResumeAlong(t: State, env: Script, blue: Proc, attempt: nat)
    requires Valid(t) && blue < t.next && attempt < RESUME_ATTEMPTS
    requires t.protocol.owner.Some? ==> t.protocol.owner.value == blue || t.protocol.owner.value !in t.running
    ensures Resume(t, env, blue, attempt).1 <==> Resumes(env, blue, t.running, t.protocol.epoch, attempt)
    decreases RESUME_ATTEMPTS - attempt
  {
    hide Own, Acked, Resumes, ExitSet, Valid, ExitAll;
    if blue !in t.running {
      NotRunningNeverResumes(env, blue, t.running, t.protocol.epoch, attempt);
    } else {
      var a := env(BlueResumed(attempt));
      OwnAlong(t, blue, true, a);
      ResumesStep(env, blue, t.running, t.protocol.epoch, attempt);
      if Acked(a, t.protocol.epoch + 1, true) { AckedSent(a, t.protocol.epoch + 1, true); }
      var (u, ok) := Own(t, blue, true, a);
      if !ok && attempt + 1 < RESUME_ATTEMPTS {
        WaitAlong(u, env(ResumeDelay(attempt)).exits);
        var v := ExitAll(u, env(ResumeDelay(attempt)).exits);
        assert v.running == t.running - (if a.sent then ExitSet(a.exits) else {}) - ExitSet(env(ResumeDelay(attempt)).exits);
        ResumeAlong(v, env, blue, attempt + 1);
        if blue !in v.running { NotRunningNeverResumes(env, blue, v.running, v.protocol.epoch, attempt + 1); }
      }
    }
  }

  /** The script lets the rollback after the failure of step m succeed. */
  ghost predicate RollbackGranted(s: State, env: Script, m: nat)
    requires !Refuses(s) && m < |FLIP|
  {
    var blue, green := s.live.value, s.next;
    var probed := m >= 4;
    var afterExit := GoneAt(s, env, m) + ExitSet(env(GreenExit).exits);
    var gone := if probed then afterExit + ExitSet(env(PortReleased).exits) else GoneAt(s, env, m);
    && (probed ==> green in afterExit && env(PortReleased).arrives)
    && blue !in gone && env(BlueRebound).sent && env(BlueRebound).arrives
    && Resumes(env, blue, s.running - gone - ExitSet(env(BlueRebound).exits), s.protocol.epoch + Issued(s, env, m), 0)
  }

  lemma {:induction false} MoreRunning(env: Script, blue: Proc, a: set<Proc>, b: set<Proc>, epoch: nat, from: nat)
    requires blue in a <==> blue in b
    ensures Resumes(env, blue, a, epoch, from) <==> Resumes(env, blue, b, epoch, from)
  {
  }

  /** The rollback along the script, from the state in which step m failed. */
  lemma RollbackAlong(s: State, env: Script, t: State, m: nat)
    requires Valid(s) && !Refuses(s) && m < |FLIP|
    requires Valid(t) && t.next == s.next + 1 && t.running == s.running + {s.next} - GoneAt(s, env, m)
    requires t.live in {None, s.live}
    requires t.protocol.epoch == s.protocol.epoch + Issued(s, env, m)
    requires t.protocol.owner in {None, s.live} || (m == 5 && t.protocol.owner == Some(s.next))
    ensures Rollback(t, env, s.live.value, s.next, m >= PROMOTION).1 <==> RollbackGranted(s, env, m)
  {
    if m >= PROMOTION {
      LateRollbackAlong(s, env, t, m);
    } else {
      BlueGreenDiffer(s);
      var k := Kill(t, s.next);
      assert Valid(k);
      hide GoneAt, Issued, Resumes, Valid, Rebind, Resume;
      RebindAlong(s, env, k, m, GoneAt(s, env, m));
    }
  }

  /** The same once green may own the port: its exit and the port are confirmed first. */
  lemma LateRollbackAlong(s: State, env: Script, t: State, m: nat)
    requires Valid(s) && !Refuses(s) && m < |FLIP|
    requires Valid(t) && t.next == s.next + 1 && t.running == s.running + {s.next} - GoneAt(s, env, m)
    requires t.live in {None, s.live}
    requires t.protocol.epoch == s.protocol.epoch + Issued(s, env, m)
    requires t.protocol.owner in {None, s.live} || (m == 5 && t.protocol.owner == Some(s.next))
    requires m >= PROMOTION
    ensures Rollback(t, env, s.live.value, s.next, true).1 <==> RollbackGranted(s, env, m)
  {
    var green := s.next;
    BlueGreenDiffer(s);
    var k := Kill(t, green);
    assert Valid(k);
    WaitAlong(k, env(GreenExit).exits);
    var c := ExitAll(k, env(GreenExit).exits);
    WaitAlong(c, env(PortReleased).exits);
    var u := ExitAll(c, env(PortReleased).exits);
    hide GoneAt, Issued, ExitSet, Resumes, ExitAll, Valid, Rebind, Resume;
    assert green !in c.running <==> green in GoneAt(s, env, m) + ExitSet(env(GreenExit).exits);
    if green !in c.running && env(PortReleased).arrives {
      LoggedValid(u, PortFree);
      RebindAlong(s, env, Logged(u, PortFree), m, GoneAt(s, env, m) + ExitSet(env(GreenExit).exits) + ExitSet(env(PortReleased).exits));
    }
  }

  lemma LoggedValid(t: State, e: Effect)
    requires Valid(t)
    ensures Valid(Logged(t, e))
  {
  }

  /** Rebinding blue and giving it the backups back, once green is out of the way. */
  lemma RebindAlong(s: State, env: Script, c: State, m: nat, gone: set<Proc>)
    requires !Refuses(s) && m < |FLIP| && Valid(s) && Valid(c) && c.next == s.next + 1
    requires c.running == s.running + {s.next} - gone
    requires c.protocol.epoch == s.protocol.epoch + Issued(s, env, m)
    requires c.protocol.owner in {None, s.live} || (c.protocol.owner == Some(s.next) && s.next !in c.running)
    ensures var (r, rebound) := Rebind(c, env, s.live.value);
            (rebound && Resume(r, env, s.live.value, 0).1) <==>
              && s.live.value !in gone && env(BlueRebound).sent && env(BlueRebound).arrives
              && Resumes(env, s.live.value, s.running - gone - ExitSet(env(BlueRebound).exits), s.protocol.epoch + Issued(s, env, m), 0)
  {
    var blue := s.live.value;
    BlueGreenDiffer(s);
    assert blue < c.next;
    hide Issued, Resumes, ExitSet, ExitAll, Valid, Resume;
    SendAlong(c, blue, env(BlueRebound), RebindSent(blue), RebindAcked(blue));
    var rest := s.running - gone - ExitSet(env(BlueRebound).exits);
    if blue !in rest { NotRunningNeverResumes(env, blue, rest, s.protocol.epoch + Issued(s, env, m), 0); }
    var (r, rebound) := Rebind(c, env, blue);
    if rebound {
      ResumeAlong(r, env, blue, 0);
      MoreRunning(env, blue, r.running, rest, s.protocol.epoch + Issued(s, env, m), 0);
    }
  }

  /**
   Blue is restored exactly if the failure before the commit was ordinary and the script grants the
   rollback. While a hub is live it owns the backups, as every restart leaves it.
  */
  lemma BlueRestoredExactly(s: State, env: Script)
    requires Valid(s) && !Refuses(s) && s.protocol.owner == s.live
    ensures var m := FirstMiss(s, env, 0);
            Restart(s, env).1 == BlueRestored <==>
              m < |FLIP| && PolicyAt(s, env, m).Ordinary? && RollbackGranted(s, env, m)
  {
    FlipAlong(s, env, |FLIP|);
    OutcomeDecided(s, env);
    var f, m := Flip(Begun(s), env, s.live.value, s.next, |FLIP|), FirstMiss(s, env, 0);
    hide Flip, FirstMiss, Granted, RecoveryGranted, RollbackGranted, GoneAt, Rollback, Abandon, Poison;
    if m < |FLIP| {
      RollbackAlong(s, env, f.s, m);
      assert s.next !in f.s.running <==> s.next in GoneAt(s, env, m);
    }
  }

  /** The hub a restart leaves live owns the backups, so the next restart may count on it. */
  lemma LiveOwns(s: State, env: Script)
    requires Valid(s) && !Refuses(s)
    ensures var t := Restart(s, env).0; t.live.Some? ==> t.protocol.owner == t.live
  {
    RestartEnds(s, env);
    hide Restart, Ordered, NoRollbackAfterCommit;
  }

  // ---- both sides of the commit are real -----------------------------------------------------------------------

  const SILENT := Answer(true, [], true, OtherFailure, false, 0, None)

  /** Everything is granted; only the retirement of blue may fail to be sent. */
  function CommitScript(s: State, sent: bool): Script {
    (p: Point) =>
      if p == BluePaused then SILENT.(ack := Some(Ack(0, s.protocol.epoch + 1, false, true, false)))
      else if p == GreenActivated then SILENT.(ack := Some(Ack(0, s.protocol.epoch + 2, true, true, false)))
      else if p == BlueRetired then SILENT.(sent := sent)
      else SILENT
  }

  lemma {:induction false} NobodyGone(s: State, sent: bool, k: nat)
    requires k <= |FLIP|
    ensures Gone(CommitScript(s, sent), k) == {}
  {
    if k > 0 {
      hide ExitSet;
      NobodyGone(s, sent, k - 1);
      assert CommitScript(s, sent)(FLIP[k - 1]).exits == [];
      NobodyExits(CommitScript(s, sent)(FLIP[k - 1]).exits);
    }
  }

  /** What the script answers at each step. */
  lemma CommitAnswers(s: State, sent: bool, k: nat)
    requires k < |FLIP|
    ensures var a := CommitScript(s, sent)(FLIP[k]);
      && a.sent && a.arrives
      && (k == 2 ==> Acked(a, s.protocol.epoch + 1, false)) && (k == 5 ==> Acked(a, s.protocol.epoch + 2, true))
  {
  }

  lemma CommitGranted(s: State, sent: bool, k: nat)
    requires !Refuses(s) && k < |FLIP| && (s.protocol.owner.Some? ==> s.protocol.owner == s.live)
    ensures Granted(s, CommitScript(s, sent), k)
  {
    hide Gone, CommitScript, Acked;
    NobodyGone(s, sent, k + 1);
    CommitAnswers(s, sent, k);
  }

  /** A restart can commit, and its retirement of blue can fail after that. */
  lemma CommitReachable(s: State, sent: bool)
    requires Valid(s) && !Refuses(s) && (s.protocol.owner.Some? ==> s.protocol.owner == s.live)
    ensures var env := CommitScript(s, sent); Restart(s, env).1 == GreenLive && env(BlueRetired).sent == sent
  {
    hide Granted, Restart, RecoveryGranted, PolicyAt, Valid, FirstMiss;
    var env := CommitScript(s, sent);
    OutcomeDecided(s, env);
    var m := FirstMiss(s, env, 0);
    if m < |FLIP| { CommitGranted(s, sent, m); }
  }

  // ---- the fifth end is real ----------------------------------------------------------------------------------

  const CORRUPT := Refusal("database-corrupt", Some("sqlite-corruption"))

  /** Green refuses to boot on a corrupt database; both hubs exit when killed; recovery reboots. */
  function RecoveryScript(s: State): Script
    requires !Refuses(s)
  {
    (p: Point) =>
      if p == GreenReady then SILENT.(arrives := false, failure := Refused(CORRUPT))
      else if p == VictimsExit then SILENT.(exits := [s.live.value, s.next])
      else if p == FreshActivated then SILENT.(ack := Some(Ack(0, s.protocol.epoch + 1, true, true, false)))
      else SILENT
  }

  /** From every state in which only the live hub runs, some script ends with a fresh hub live. */
  lemma FreshBlueReachable(s: State)
    requires Valid(s) && !Refuses(s) && s.running == {s.live.value}
    ensures Restart(s, RecoveryScript(s)).1 == FreshBlueLive
  {
    var env := RecoveryScript(s);
    assert !Granted(s, env, 0);
    assert FirstMiss(s, env, 0) == 0;
    ScriptPolicy(s);
    ScriptGrants(s);
    OutcomeDecided(s, env);
    hide FirstMiss, Restart, RecoveryGranted, PolicyAt, Granted;
  }

  lemma CorruptionRecovers(exit78: bool)
    ensures RecoveryPolicy(Refused(CORRUPT), exit78) == Automatic
  {
    var code := "database-corrupt";
    assert code[0] == 'd' && "question-owner-activation-failed"[0] == 'q';
  }

  lemma ScriptPolicy(s: State)
    requires !Refuses(s)
    ensures PolicyAt(s, RecoveryScript(s), 0).Automatic?
  {
    hide RecoveryPolicy, GoneAt;
    var env := RecoveryScript(s);
    CorruptionRecovers(s.next in GoneAt(s, env, 0) && env(FLIP[0]).exit78);
  }

  lemma ScriptGrants(s: State)
    requires Valid(s) && !Refuses(s) && s.running == {s.live.value}
    ensures RecoveryGranted(s, RecoveryScript(s), 0)
  {
    hide Valid, GoneAt, RecoveryScript, ExitSet, Acked;
    var env := RecoveryScript(s);
    ScriptPoints(s);
    ScriptAcks(s.protocol.epoch + 1);
    ListedExit([s.live.value, s.next], 0);
    ListedExit([s.live.value, s.next], 1);
    NobodyExits([] + [] + []);
    assert Issued(s, env, 0) == 0;
  }

  lemma ScriptAcks(epoch: nat)
    ensures Acked(SILENT.(ack := Some(Ack(0, epoch, true, true, false))), epoch, true)
  {
  }

  lemma ListedExit(exits: seq<Proc>, i: nat)
    requires i < |exits|
    ensures exits[i] in ExitSet(exits)
  {
  }

  lemma NobodyExits(exits: seq<Proc>)
    requires exits == []
    ensures ExitSet(exits) == {}
  {
  }

  lemma ScriptPoints(s: State)
    requires !Refuses(s)
    ensures var env := RecoveryScript(s);
      && env(VictimsExit) == SILENT.(exits := [s.live.value, s.next])
      && env(FreshActivated) == SILENT.(ack := Some(Ack(0, s.protocol.epoch + 1, true, true, false)))
      && (forall p | p in {RecoveryPort, Classified, WorkerSpawned, FreshReady, FreshHealthy, WorkerStays} :: env(p) == SILENT)
  {
  }
}
