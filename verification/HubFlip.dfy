/**
 The blue-green restart of the hub supervisor as functions of the supervisor's state and of a script:
 what its surroundings answer at each await, children's exits included. Every interleaving of lost
 acknowledgements, timeouts, failed sends and exits is one script. `log` records what happened, in
 order, since the flip began.
*/
module HubFlip {
  import opened Prelude
  import opened BackupOwnership

  // ---- what a script answers -------------------------------------------------------------------------

  /** A parsed preflight refusal: its code and its recovery cause. */
  datatype Refusal = Refusal(code: string, cause: Option<string>)

  datatype Failure = Refused(refusal: Refusal) | MalformedRefusal | OtherFailure

  /** How the failure of a step is to be treated. */
  datatype Policy = Ordinary | Automatic | OfflineOnly

  /** validatedAutomaticRecoveryCause */
  predicate RecoverableCause(r: Refusal) {
    (r.code == "database-corrupt" && r.cause == Some("sqlite-corruption"))
    || (r.code == "database-orphan-family" && r.cause == Some("orphan-family"))
  }

  /** recoveryPolicyForFailure; exit78 says that the child has exited with code 78. */
  function RecoveryPolicy(failure: Failure, exit78: bool): Policy {
    if failure.Refused? then
      var r := failure.refusal;
      if r.code == "question-owner-activation-failed" then Ordinary
      else if r.code == "database-validation-unavailable" then Automatic
      else if r.code == "database-lineage-invalid" && r.cause == Some("lineage-rollback") then Automatic
      else if RecoverableCause(r) then Automatic
      else OfflineOnly
    else if exit78 || failure.MalformedRefusal? then Automatic
    else Ordinary
  }

  /** The awaits of a restart. */
  datatype Point =
    | GreenReady | GreenHealthy | BluePaused | BlueReleased | GreenPromoted | GreenActivated
    | BlueRetired                                                // the send after the commit
    | GreenExit | PortReleased | BlueRebound | BlueResumed(attempt: nat) | ResumeDelay(attempt: nat)
    | BlueExit                                                   // giving blue up for revival
    | VictimsExit | RecoveryPort | Classified | WorkerSpawned
    | FreshReady | FreshHealthy | FreshActivated | WorkerStays | FreshExit

  /**
   What happens at an await: whether the send before it goes out, which children exit meanwhile,
   whether what is awaited arrives, and with which acknowledgement or else which failure.
  */
  datatype Answer = Answer(
    sent: bool, exits: seq<Proc>, arrives: bool, failure: Failure, exit78: bool,
    requestId: RequestId, ack: Option<Ack>)

  type Script = Point -> Answer

  // ---- the supervisor ----------------------------------------------------------------------------------

  datatype Effect =
    | Exited(p: Proc)          // the supervisor saw the process exit
    | Killed(p: Proc)
    | KilledAll                // recovery took every child down
    | Paused(p: Proc)          // a confirmed backup pause
    | DrainSent(p: Proc)
    | Released(p: Proc)        // blue gave up the public port
    | PromoteSent(p: Proc)     // green may bind the public port from here on
    | Promoted(p: Proc)
    | PortFree                 // the public port was probed free
    | RebindSent(p: Proc)      // blue is told to listen on the public port again
    | RebindAcked(p: Proc)
    | Activated(p: Proc)       // a confirmed backup activation
    | Committed
    | RetireSent(p: Proc)
    | PostFlipFailure          // a failure after the commit, which is only logged

  /** owed: FlipRecoveryTracker's deferred revival; reviving: reviveLiveHub has been started. */
  datatype State = State(
    protocol: Protocol, live: Option<Proc>, inFlight: bool, poisoned: bool, owed: bool, reviving: bool,
    running: set<Proc>, retired: set<Proc>, next: Proc, log: seq<Effect>)

  datatype Outcome =
    | Ignored
    | GreenLive       // the flip committed
    | BlueRestored    // rolled back
    | RevivalPending  // nothing is live and a revival was started
    | PoisonedOffline // recovery latched, nothing is live
    | FreshBlueLive   // automatic recovery rebooted a fresh blue inside the restart

  function Logged(s: State, e: Effect): State {
    s.(log := s.log + [e])
  }

  /** Processes whose exit the supervisor has seen. */
  function ExitedSet(s: State): set<Proc> {
    set p | 0 <= p < s.next && p !in s.running
  }

  /** The exit handler of spawnHub. */
  function OnExit(s: State, p: Proc): State {
    if p !in s.running then s
    else
      var t := Logged(s.(running := s.running - {p}), Exited(p));
      if p in s.retired || s.live != Some(p) then t
      else if s.poisoned then t.(live := None)
      else if s.inFlight then t.(live := None, owed := true)
      else t.(live := None, reviving := true)
  }

  /** Time passes: children exit one after the other. */
  function ExitAll(s: State, ps: seq<Proc>): State {
    if ps == [] then s else OnExit(ExitAll(s, ps[..|ps| - 1]), ps[|ps| - 1])
  }

  /** Waits for a message of `from`; its exit before the message is a failure. */
  function WaitFrom(s: State, from: Proc, a: Answer): (State, bool) {
    var t := ExitAll(s, a.exits);
    (t, a.arrives && from in t.running)
  }

  /** The acknowledgement that reaches the waiter. */
  function Heard(t: State, p: Proc, a: Answer): Option<Ack> {
    if a.arrives && p in t.running && a.ack.Some? && a.ack.value.requestId == a.requestId then a.ack else None
  }

  /** One awaited ownership call: check, take ownership, send, wait, settle. */
  function Own(s: State, p: Proc, active: bool, a: Answer): (State, bool) {
    var (protocol, command) := Begin(s.protocol, p, active, a.requestId, ExitedSet(s));
    var begun := s.(protocol := protocol);
    if command.None? || !a.sent then (begun, false)
    else
      var t := ExitAll(begun, a.exits);
      var (settled, ok) := Settle(protocol, p, command.value, Heard(t, p, a));
      var u := t.(protocol := settled);
      (if ok then Logged(u, if active then Activated(p) else Paused(p)) else u, ok)
  }

  /** A command, the wait for its answer, and what the answer means. */
  function SendAndWait(s: State, p: Proc, a: Answer, command: Effect, answer: Effect): (State, bool) {
    if !a.sent then (s, false)
    else
      var (t, ok) := WaitFrom(Logged(s, command), p, a);
      (if ok then Logged(t, answer) else t, ok)
  }

  // ---- up to the commit ----------------------------------------------------------------------------------

  const FLIP: seq<Point> := [GreenReady, GreenHealthy, BluePaused, BlueReleased, GreenPromoted, GreenActivated]

  /** From this step on green may own the public listener. */
  const PROMOTION := 4

  function FlipStep(s: State, point: Point, blue: Proc, green: Proc, a: Answer): (State, bool) {
    match point
    case GreenReady => WaitFrom(s, green, a)
    case GreenHealthy => (ExitAll(s, a.exits), a.arrives)
    case BluePaused => Own(s, blue, false, a)
    case BlueReleased => SendAndWait(s, blue, a, DrainSent(blue), Released(blue))
    case GreenPromoted => SendAndWait(s, green, a, PromoteSent(green), Promoted(green))
    case _ => Own(s, green, true, a)
  }

  /** How far the flip got: `passed` steps succeeded, and if there are more the next one failed. */
  datatype Flow = Flow(s: State, passed: nat)

  function Flip(s: State, env: Script, blue: Proc, green: Proc, steps: nat): (f: Flow)
    requires steps <= |FLIP|
    ensures f.passed <= steps
  {
    if steps == 0 then Flow(s, 0)
    else
      var f := Flip(s, env, blue, green, steps - 1);
      if f.passed < steps - 1 then f
      else
        var (t, ok) := FlipStep(f.s, FLIP[steps - 1], blue, green, env(FLIP[steps - 1]));
        Flow(t, if ok then steps else steps - 1)
  }

  /** The commit: green becomes live; then blue is told to retire, which may fail. */
  function Commit(s: State, blue: Proc, green: Proc, a: Answer): (State, bool) {
    var t := Logged(s, Committed).(live := Some(green), owed := false);
    if !a.sent then (t, false)
    else (Logged(t, RetireSent(blue)).(retired := t.retired + {blue}), true)
  }

  // ---- after a failure --------------------------------------------------------------------------------------

  function Kill(s: State, p: Proc): State {
    Logged(s, Killed(p)).(retired := s.retired + {p})
  }

  /** resumeRetryMs has three delays, hence four attempts. */
  const RESUME_ATTEMPTS := 4

  function Resume(s: State, env: Script, blue: Proc, attempt: nat): (State, bool)
    requires attempt < RESUME_ATTEMPTS
    decreases RESUME_ATTEMPTS - attempt
  {
    if blue !in s.running then (s, false)
    else
      var (t, ok) := Own(s, blue, true, env(BlueResumed(attempt)));
      if ok || attempt + 1 == RESUME_ATTEMPTS then (t, ok)
      else Resume(ExitAll(t, env(ResumeDelay(attempt)).exits), env, blue, attempt + 1)
  }

  /** Green's exit is confirmed, then the public port is probed free. */
  function ConfirmGone(s: State, env: Script, green: Proc): (State, bool) {
    var t := ExitAll(s, env(GreenExit).exits);
    if green in t.running then (t, false)
    else
      var u := ExitAll(t, env(PortReleased).exits);
      if env(PortReleased).arrives then (Logged(u, PortFree), true) else (u, false)
  }

  function Rebind(s: State, env: Script, blue: Proc): (State, bool) {
    if blue !in s.running then (s, false)
    else SendAndWait(s, blue, env(BlueRebound), RebindSent(blue), RebindAcked(blue))
  }

  /** rollbackToBlue */
  function Rollback(s: State, env: Script, blue: Proc, green: Proc, greenMayOwn: bool): (State, bool) {
    var k := Kill(s, green);
    var (c, gone) := if greenMayOwn then ConfirmGone(k, env, green) else (k, true);
    if !gone then (c, false)
    else
      var (r, rebound) := Rebind(c, env, blue);
      if rebound then Resume(r, env, blue, 0) else (r, false)
  }

  /** abandonLiveForRevival: drop blue, owe a revival, kill it; its exit is not insisted on. */
  function Abandon(s: State, env: Script, blue: Proc): State {
    ExitAll(Kill(s.(live := None, owed := true), blue), env(BlueExit).exits)
  }

  /** Poison: latch, retire both hubs, and kill every child. */
  function Latch(s: State, blue: Proc, green: Proc): State {
    Logged(s, KilledAll).(poisoned := true, live := None, retired := s.retired + {blue, green})
  }

  /** The verified reboot: a fresh worker, a fresh blue that is ready, healthy and backup-active. */
  function Reboot(s: State, env: Script): State {
    if !env(WorkerSpawned).arrives then s
    else
      var newBlue := s.next;
      var (t, up) := Boot(s.(running := s.running + {newBlue}, next := newBlue + 1), env, newBlue);
      if up then t.(live := Some(newBlue), owed := false, poisoned := false)
      else ExitAll(Kill(t, newBlue), env(FreshExit).exits)
  }

  function Boot(s: State, env: Script, newBlue: Proc): (State, bool) {
    var (r, ready) := WaitFrom(s, newBlue, env(FreshReady));
    if !ready then (r, false)
    else
      var h := ExitAll(r, env(FreshHealthy).exits);
      if !env(FreshHealthy).arrives then (h, false)
      else
        var (t, active) := Own(h, newBlue, true, env(FreshActivated));
        (t, active && env(WorkerStays).arrives)
  }

  /** enterRecoveryPoison: only the automatic policy goes on to classify the journal and reboot. */
  function Poison(s: State, env: Script, policy: Policy, blue: Proc, green: Proc): State {
    var t := ExitAll(Latch(s, blue, green), env(VictimsExit).exits);
    if t.running != {} || !env(VictimsExit).arrives || !env(RecoveryPort).arrives
       || !policy.Automatic? || !env(Classified).arrives then t
    else Reboot(t, env)
  }

  /** What the step threw. */
  function Cause(a: Answer): Failure {
    if a.sent && !a.arrives then a.failure else OtherFailure
  }

  /** The catch block of restart. */
  function HandleFailure(s: State, env: Script, blue: Proc, green: Proc, committed: bool, greenMayOwn: bool, at: Answer)
    : (State, Outcome)
  {
    var policy := RecoveryPolicy(Cause(at), green !in s.running && at.exit78);
    if !committed && !policy.Ordinary? then
      var t := Poison(s, env, policy, blue, green);
      (t, if t.poisoned then PoisonedOffline else FreshBlueLive)
    else if committed then (Logged(s, PostFlipFailure), GreenLive)
    else
      var (t, restored) := Rollback(s, env, blue, green, greenMayOwn);
      if restored then (t, BlueRestored) else (Abandon(t, env, blue), RevivalPending)
  }

  /** The finally block. */
  function Finish(s: State): State {
    var t := s.(inFlight := false);
    if t.poisoned then t
    else t.(owed := false, reviving := t.reviving || (t.owed && t.live.None?))
  }

  predicate Refuses(s: State) { s.poisoned || s.inFlight || s.live.None? }

  /** The flip has begun: green is spawned. */
  function Begun(s: State): State {
    s.(log := [], inFlight := true, running := s.running + {s.next}, next := s.next + 1)
  }

  /** restart(reason): the new state, the outcome and the green it spawned. */
  function Restart(s: State, env: Script): (State, Outcome) {
    if Refuses(s) then (s, Ignored)
    else
      var blue, green := s.live.value, s.next;
      var f := Flip(Begun(s), env, blue, green, |FLIP|);
      var (t, outcome) :=
        if f.passed == |FLIP| then
          var (c, clean) := Commit(f.s, blue, green, env(BlueRetired));
          if clean then (c, GreenLive) else HandleFailure(c, env, blue, green, true, true, env(BlueRetired))
        else HandleFailure(f.s, env, blue, green, false, f.passed >= PROMOTION, env(FLIP[f.passed]));
      (Finish(t), outcome)
  }
}
