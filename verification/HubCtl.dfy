/**
 The supervisor object: module variables and child states changed step by step, with restart as the
 source writes it. Each method leaves the state its function in HubFlip says.
*/
module HubCtl {
  import opened Prelude
  import opened BackupOwnership
  import opened HubFlip

  class HubCtl {
    const ownership: JournalBackupOwnershipProtocol
    var live: Option<Proc>
    var flipInFlight: bool
    var recoveryPoisoned: bool
    /** FlipRecoveryTracker: a revival is owed once the flip is over. */
    var pending: bool
    /** reviveLiveHub has been started. */
    var reviving: bool
    var children: set<Proc>
    var retired: set<Proc>
    var nextProc: Proc
    ghost var log: seq<Effect>

    ghost function View(): State
      reads this, ownership
    {
      State(ownership.State(), live, flipInFlight, recoveryPoisoned, pending, reviving, children, retired, nextProc, log)
    }

    constructor ()
      ensures View() == State(FRESH, None, false, false, false, false, {}, {}, 0, [])
      ensures fresh(ownership)
    {
      ownership := new JournalBackupOwnershipProtocol();
      live, flipInFlight, recoveryPoisoned, pending, reviving := None, false, false, false, false;
      children, retired, nextProc, log := {}, {}, 0, [];
    }

    method SpawnHub() returns (p: Proc)
      modifies this
      ensures p == old(nextProc)
      ensures View() == old(View()).(running := old(children) + {p}, next := p + 1)
    {
      p := nextProc;
      children, nextProc := children + {p}, nextProc + 1;
    }

    /** The exit handler of spawnHub. */
    method OnChildExit(p: Proc)
      modifies this
      ensures View() == OnExit(old(View()), p)
    {
      if p !in children { return; }
      children := children - {p};
      log := log + [Exited(p)];
      if p !in retired && live == Some(p) {
        live := None;
        if !recoveryPoisoned {
          if flipInFlight { pending := true; } else { reviving := true; }
        }
      }
    }

    /** An await during which the given children exit, each through the exit handler. */
    method Await(exits: seq<Proc>)
      modifies this
      ensures View() == ExitAll(old(View()), exits)
    {
      for i := 0 to |exits|
        invariant View() == ExitAll(old(View()), exits[..i])
      {
        assert exits[..i + 1][..i] == exits[..i];
        OnChildExit(exits[i]);
      }
      assert exits[..|exits|] == exits;
    }

    method WaitForHubMsg(from: Proc, a: Answer) returns (ok: bool)
      modifies this
      ensures (View(), ok) == WaitFrom(old(View()), from, a)
    {
      Await(a.exits);
      ok := a.arrives && from in children;
    }

    function Exits(): set<Proc>
      reads this
    {
      set p | 0 <= p < nextProc && p !in children
    }

    /** activatePromotedGreen, pauseBlueBeforeDrain and their kin, awaited. */
    method OwnershipCall(p: Proc, active: bool, a: Answer) returns (ok: bool)
      modifies this, ownership
      ensures (View(), ok) == Own(old(View()), p, active, a)
    {
      var command: Option<Command>;
      if active {
        command := ownership.BeginActivation(p, a.requestId, Exits());
      } else {
        command := ownership.BeginPause(p, a.requestId, Exits());
      }
      if command.None? || !a.sent { return false; }
      Await(a.exits);
      var reply := if a.arrives && p in children && a.ack.Some? && a.ack.value.requestId == a.requestId then a.ack else None;
      ok := ownership.SettleCommand(p, command.value, reply);
      if ok { log := log + [if active then Activated(p) else Paused(p)]; }
    }

    method SendAndWaitFor(p: Proc, a: Answer, ghost command: Effect, ghost answer: Effect) returns (ok: bool)
      modifies this
      ensures (View(), ok) == SendAndWait(old(View()), p, a, command, answer)
    {
      if !a.sent { return false; }
      log := log + [command];
      ok := WaitForHubMsg(p, a);
      if ok { log := log + [answer]; }
    }

    /** The try block up to the commit gate; `passed` steps succeeded before one threw. */
    method TryFlip(env: Script, blue: Proc, green: Proc) returns (passed: nat)
      modifies this, ownership
      ensures Flow(View(), passed) == Flip(old(View()), env, blue, green, |FLIP|)
    {
      ghost var s, t := View(), View();
      hide Own, SendAndWait, ExitAll, WaitFrom, Flip;
      FlipStart(s, env, blue, green);
      var ready := WaitForHubMsg(green, env(GreenReady));
      FlipNext(s, env, blue, green, 0, t, View(), ready);
      if !ready { return 0; }
      t := View();
      Await(env(GreenHealthy).exits);
      var healthy := env(GreenHealthy).arrives;
      FlipNext(s, env, blue, green, 1, t, View(), healthy);
      if !healthy { return 1; }
      t := View();
      var paused := OwnershipCall(blue, false, env(BluePaused));
      FlipNext(s, env, blue, green, 2, t, View(), paused);
      if !paused { return 2; }
      t := View();
      var released := SendAndWaitFor(blue, env(BlueReleased), DrainSent(blue), Released(blue));
      FlipNext(s, env, blue, green, 3, t, View(), released);
      if !released { return 3; }
      t := View();
      var promoted := SendAndWaitFor(green, env(GreenPromoted), PromoteSent(green), Promoted(green));
      FlipNext(s, env, blue, green, 4, t, View(), promoted);
      if !promoted { return 4; }
      t := View();
      var acquired := OwnershipCall(green, true, env(GreenActivated));
      FlipNext(s, env, blue, green, 5, t, View(), acquired);
      passed := if acquired then 6 else 5;
    }

    method SetLive(p: Proc)
      modifies this`live, this`pending
      ensures live == Some(p) && !pending
    {
      live := Some(p);
      pending := false;
    }

    /** Retire a process and send it the kill signal. */
    method KillTree(p: Proc)
      modifies this
      ensures View() == Kill(old(View()), p)
    {
      retired := retired + {p};
      log := log + [Killed(p)];
    }

    method RollbackToBlue(env: Script, blue: Proc, green: Proc, greenMayOwnPublicListener: bool) returns (ok: bool)
      modifies this, ownership
      ensures (View(), ok) == Rollback(old(View()), env, blue, green, greenMayOwnPublicListener)
    {
      hide ExitAll, SendAndWait, Resume;
      KillTree(green);
      if greenMayOwnPublicListener {
        Await(env(GreenExit).exits);
        if green in children { return false; }
        Await(env(PortReleased).exits);
        if !env(PortReleased).arrives { return false; }
        log := log + [PortFree];
      }
      if blue !in children { return false; }
      var rebound := SendAndWaitFor(blue, env(BlueRebound), RebindSent(blue), RebindAcked(blue));
      if !rebound { return false; }
      ok := ResumeBlue(env, blue);
    }

    /** The retry loop of rollbackToBlue. */
    method ResumeBlue(env: Script, blue: Proc) returns (ok: bool)
      modifies this, ownership
      ensures (View(), ok) == Resume(old(View()), env, blue, 0)
    {
      hide ExitAll, Own;
      ok := false;
      ghost var s := View();
      for attempt := 0 to RESUME_ATTEMPTS
        invariant attempt < RESUME_ATTEMPTS ==> Resume(View(), env, blue, attempt) == Resume(s, env, blue, 0)
        invariant attempt == RESUME_ATTEMPTS ==> (View(), false) == Resume(s, env, blue, 0)
      {
        if blue !in children { return false; }
        ok := OwnershipCall(blue, true, env(BlueResumed(attempt)));
        if ok { return; }
        if attempt + 1 < RESUME_ATTEMPTS { Await(env(ResumeDelay(attempt)).exits); }
      }
      ok := false;
    }

    method AbandonLiveForRevival(env: Script, blue: Proc)
      modifies this
      ensures View() == Abandon(old(View()), env, blue)
    {
      live := None;
      pending := true;
      KillTree(blue);
      Await(env(BlueExit).exits);
    }

    /** Latch, take every child down, and under the automatic policy try one verified reboot. */
    method EnterRecoveryPoison(env: Script, policy: Policy, blue: Proc, green: Proc)
      modifies this, ownership
      ensures View() == Poison(old(View()), env, policy, blue, green)
    {
      hide ExitAll, Reboot;
      recoveryPoisoned := true;
      retired := retired + {blue, green};
      live := None;
      log := log + [KilledAll];
      Await(env(VictimsExit).exits);
      if children != {} || !env(VictimsExit).arrives { return; }
      if !env(RecoveryPort).arrives { return; }
      if !policy.Automatic? { return; }
      if !env(Classified).arrives { return; }
      RebootFresh(env);
    }

    method RebootFresh(env: Script)
      modifies this, ownership
      ensures View() == Reboot(old(View()), env)
    {
      hide ExitAll, Own;
      if !env(WorkerSpawned).arrives { return; }
      var freshBlue := SpawnHub();
      var up := BootFresh(env, freshBlue);
      if up {
        SetLive(freshBlue);
        recoveryPoisoned := false;
      } else {
        KillTree(freshBlue);
        Await(env(FreshExit).exits);
      }
    }

    method BootFresh(env: Script, freshBlue: Proc) returns (up: bool)
      modifies this, ownership
      ensures (View(), up) == Boot(old(View()), env, freshBlue)
    {
      hide ExitAll, Own;
      var ready := WaitForHubMsg(freshBlue, env(FreshReady));
      if !ready { return false; }
      Await(env(FreshHealthy).exits);
      if !env(FreshHealthy).arrives { return false; }
      var active := OwnershipCall(freshBlue, true, env(FreshActivated));
      up := active && env(WorkerStays).arrives;
    }

    /** Green goes live, then blue is told to retire; a throw of that send leaves green live. */
    method CommitFlip(blue: Proc, green: Proc, a: Answer) returns (clean: bool)
      modifies this
      ensures (View(), clean) == Commit(old(View()), blue, green, a)
    {
      log := log + [Committed];
      SetLive(green);
      if !a.sent { return false; }
      log := log + [RetireSent(blue)];
      retired := retired + {blue};
      clean := true;
    }

    /** The finally block. */
    method FinishFlip()
      modifies this
      ensures View() == Finish(old(View()))
    {
      flipInFlight := false;
      if !recoveryPoisoned {
        var revive := pending && live.None?;
        pending := false;
        if revive { reviving := true; }
      }
    }

    method BeginFlip() returns (green: Proc)
      modifies this
      ensures View() == Begun(old(View())) && green == old(nextProc)
    {
      flipInFlight := true;
      log := [];
      green := SpawnHub();
    }

    /** restart(reason) with its try, catch and finally blocks. */
    method Restart(env: Script) returns (outcome: Outcome)
      modifies this, ownership
      ensures (View(), outcome) == HubFlip.Restart(old(View()), env)
    {
      if recoveryPoisoned || flipInFlight || live.None? { return Ignored; }
      hide Flip, Commit, HandleFailure, Finish, Begun;
      var blue := live.value;
      var committed := false;
      var green := BeginFlip();
      var passed := TryFlip(env, blue, green);
      if passed == |FLIP| {
        committed := true;
        var clean := CommitFlip(blue, green, env(BlueRetired));
        outcome := GreenLive;
        if !clean { outcome := Catch(env, blue, green, committed, true, env(BlueRetired)); }
      } else {
        outcome := Catch(env, blue, green, committed, passed >= PROMOTION, env(FLIP[passed]));
      }
      FinishFlip();
    }

    /** The catch block; `committed` alone keeps a failure after the commit from undoing the flip. */
    method Catch(env: Script, blue: Proc, green: Proc, committed: bool, greenMayOwnPublicListener: bool, at: Answer)
      returns (outcome: Outcome)
      modifies this, ownership
      ensures (View(), outcome) == HandleFailure(old(View()), env, blue, green, committed, greenMayOwnPublicListener, at)
    {
      hide Rollback, Abandon, Poison;
      var policy := RecoveryPolicy(Cause(at), green !in children && at.exit78);
      if !committed && !policy.Ordinary? {
        EnterRecoveryPoison(env, policy, blue, green);
        return if recoveryPoisoned then PoisonedOffline else FreshBlueLive;
      }
      if committed {
        log := log + [PostFlipFailure];
        return GreenLive;
      }
      var restored := RollbackToBlue(env, blue, green, greenMayOwnPublicListener);
      if restored { return BlueRestored; }
      AbandonLiveForRevival(env, blue);
      outcome := RevivalPending;
    }
  }

  lemma FlipStart(s: State, env: Script, blue: Proc, green: Proc)
    ensures Flip(s, env, blue, green, 0) == Flow(s, 0)
  {
  }

  /** One more step of the flip; a step that fails ends it. */
  lemma FlipNext(s: State, env: Script, blue: Proc, green: Proc, k: nat, t: State, u: State, ok: bool)
    requires k < |FLIP| && Flip(s, env, blue, green, k) == Flow(t, k)
    requires (u, ok) == FlipStep(t, FLIP[k], blue, green, env(FLIP[k]))
    ensures ok ==> Flip(s, env, blue, green, k + 1) == Flow(u, k + 1)
    ensures !ok ==> Flip(s, env, blue, green, |FLIP|) == Flow(u, k)
  {
    hide FlipStep;
    if !ok { FlipStops(s, env, blue, green, k, u, |FLIP|); }
  }

  lemma {:induction false} FlipStops(s: State, env: Script, blue: Proc, green: Proc, k: nat, u: State, steps: nat)
    requires k < steps <= |FLIP| && Flip(s, env, blue, green, k + 1) == Flow(u, k)
    ensures Flip(s, env, blue, green, steps) == Flow(u, k)
  {
    hide FlipStep;
    if steps > k + 1 { FlipStops(s, env, blue, green, k, u, steps - 1); }
  }
}
