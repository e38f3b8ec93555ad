/**
 Single-owner protocol for journal backups: the supervisor's side as a class, the hub
 endpoints and the wire as an adversarial environment. A command or an acknowledgement may be
 lost, delayed, duplicated or reordered, and a process may die at any step.
*/
module BackupOwnership {
  import opened Prelude

  type Proc = nat
  type RequestId = nat

  datatype Command = Command(requestId: RequestId, epoch: nat, active: bool)
  datatype Ack = Ack(requestId: RequestId, epoch: nat, active: bool, applied: bool, error: bool)

  /** The two fields of the supervisor-side protocol object. */
  datatype Protocol = Protocol(epoch: nat, owner: Option<Proc>)

  const FRESH := Protocol(0, None)

  /** A remembered owner that is known to have exited no longer counts. */
  function OwnerAfterCheck(owner: Option<Proc>, exited: set<Proc>): Option<Proc> {
    if owner.Some? && owner.value in exited then None else owner
  }

  predicate OwnedByOther(owner: Option<Proc>, candidate: Proc) {
    owner.Some? && owner.value != candidate
  }

  /**
   Everything up to the send. Activation takes ownership provisionally before the command goes
   out; a pause leaves the owner alone. `None` is the thrown ownership conflict.
  */
  function Begin(p: Protocol, candidate: Proc, active: bool, requestId: RequestId, exited: set<Proc>)
    : (Protocol, Option<Command>)
  {
    var owner := OwnerAfterCheck(p.owner, exited);
    if OwnedByOther(owner, candidate) then (p.(owner := owner), None)
    else (Protocol(p.epoch + 1, if active then Some(candidate) else owner),
          Some(Command(requestId, p.epoch + 1, active)))
  }

  /** The acknowledgement proves the command was applied and is still current. */
  predicate Confirms(command: Command, reply: Option<Ack>) {
    && reply.Some?
    && reply.value.epoch == command.epoch
    && !reply.value.error
    && reply.value.applied
    && reply.value.active == command.active
  }

  /** After the await: a confirmed pause releases ownership, nothing else changes it. */
  function Settle(p: Protocol, child: Proc, command: Command, reply: Option<Ack>): (Protocol, bool) {
    if Confirms(command, reply) then
      (if !command.active && p.owner == Some(child) then p.(owner := None) else p, true)
    else (p, false)
  }

  class JournalBackupOwnershipProtocol {
    var epoch: nat
    var owner: Option<Proc>

    function State(): Protocol
      reads this
    {
      Protocol(epoch, owner)
    }

    constructor ()
      ensures State() == FRESH
    {
      epoch, owner := 0, None;
    }

    method AssertNoOtherOwner(candidate: Proc, exited: set<Proc>) returns (ok: bool)
      modifies this`owner
      ensures owner == if old(owner).Some? && old(owner).value in exited then None else old(owner)
      ensures ok <==> owner == None || owner == Some(candidate)
    {
      if owner.Some? && owner.value in exited { owner := None; }
      ok := owner.None? || owner.value == candidate;
    }

    /** activateInitialBlueAfterHealth, resumeBlueAfterRollback and activatePromotedGreen up to the send. */
    method BeginActivation(child: Proc, requestId: RequestId, exited: set<Proc>) returns (command: Option<Command>)
      modifies this
      ensures (State(), command) == Begin(old(State()), child, true, requestId, exited)
      ensures command.None? <==> old(owner).Some? && old(owner).value !in exited && old(owner).value != child
      ensures command.Some? ==>
                command.value == Command(requestId, old(epoch) + 1, true) && epoch == old(epoch) + 1 && owner == Some(child)
      ensures command.None? ==> State() == old(State())
    {
      var ok := AssertNoOtherOwner(child, exited);
      if !ok { return None; }
      owner := Some(child);
      epoch := epoch + 1;
      command := Some(Command(requestId, epoch, true));
    }

    /** pauseBlueBeforeDrain up to the send. */
    method BeginPause(child: Proc, requestId: RequestId, exited: set<Proc>) returns (command: Option<Command>)
      modifies this
      ensures (State(), command) == Begin(old(State()), child, false, requestId, exited)
      ensures command.None? <==> old(owner).Some? && old(owner).value !in exited && old(owner).value != child
      ensures command.Some? ==>
                command.value == Command(requestId, old(epoch) + 1, false) && epoch == old(epoch) + 1
      ensures owner == if old(owner).Some? && old(owner).value in exited then None else old(owner)
    {
      var ok := AssertNoOtherOwner(child, exited);
      if !ok { return None; }
      epoch := epoch + 1;
      command := Some(Command(requestId, epoch, false));
    }

    /** The continuation after the acknowledgement, the timeout (`None`) or the child's exit (`None`). */
    method SettleCommand(child: Proc, command: Command, reply: Option<Ack>) returns (ok: bool)
      modifies this`owner
      ensures (State(), ok) == Settle(old(State()), child, command, reply)
      ensures ok <==>
                && reply.Some? && reply.value.epoch == command.epoch && !reply.value.error
                && reply.value.applied && reply.value.active == command.active
      ensures owner == if ok && !command.active && old(owner) == Some(child) then None else old(owner)
    {
      if reply.None? { return false; }
      var result := reply.value;
      if result.epoch != command.epoch { return false; }
      if result.error { return false; }
      if !result.applied || result.active != command.active { return false; }
      if !command.active && owner == Some(child) { owner := None; }
      ok := true;
    }
  }

  // ---- the hubs, the wire and the whole system ---------------------------------------------

  /** A hub endpoint: whether it schedules backups, and whether a generation is being written. */
  datatype Hub = Hub(alive: bool, active: bool, writing: bool, latest: Option<Command>)

  datatype System = System(
    protocol: Protocol,
    waiting: Option<(Proc, Command)>,  // the one ownership call in progress
    hubs: map<Proc, Hub>,
    wire: set<(Proc, Command)>,        // every command ever sent
    acks: set<(Proc, Ack)>)            // every acknowledgement ever produced

  const BOOT := System(FRESH, None, map[], {}, {})

  datatype Event =
    | Spawn(p: Proc)
    | Die(p: Proc)
    | BeginCall(p: Proc, active: bool, requestId: RequestId, exited: set<Proc>)
    | Reply(ack: Ack)
    | GiveUp
    | Deliver(p: Proc, command: Command, succeeds: bool)
    | Acknowledge(p: Proc, ack: Ack)
    | StartGeneration(p: Proc)
    | EndGeneration(p: Proc)

  predicate Alive(s: System, p: Proc) { p in s.hubs && s.hubs[p].alive }

  /** The endpoint's contract: a command is considered only if its epoch is newer than all before it. */
  predicate Newer(hub: Hub, command: Command) {
    hub.latest.None? || hub.latest.value.epoch < command.epoch
  }

  /**
   An endpoint may claim `applied` only for its latest command, reporting its own state, and
   for a pause only once the generation in flight has settled.
  */
  predicate HonestAck(hub: Hub, ack: Ack) {
    ack.applied ==>
      && hub.latest.Some?
      && hub.latest.value.epoch == ack.epoch && hub.latest.value.requestId == ack.requestId
      && ack.active == hub.active
      && (!hub.latest.value.active ==> !hub.writing)
  }

  /** What the supervisor counts as exited really has exited. */
  predicate ExitsReal(s: System, exited: set<Proc>) {
    forall p :: p in exited ==> !Alive(s, p)
  }

  function Step(s: System, e: Event): System {
    match e
    case Spawn(p) =>
      if p in s.hubs then s else s.(hubs := s.hubs[p := Hub(true, false, false, None)])
    case Die(p) =>
      if p !in s.hubs then s else s.(hubs := s.hubs[p := s.hubs[p].(alive := false)])
    case BeginCall(p, active, requestId, exited) =>
      if s.waiting.Some? || p !in s.hubs || !ExitsReal(s, exited) then s
      else
        var (protocol, command) := Begin(s.protocol, p, active, requestId, exited);
        if command.None? then s.(protocol := protocol)
        else s.(protocol := protocol, waiting := Some((p, command.value)), wire := s.wire + {(p, command.value)})
    case Reply(ack) =>
      if s.waiting.None? || (s.waiting.value.0, ack) !in s.acks || ack.requestId != s.waiting.value.1.requestId then s
      else s.(protocol := Settle(s.protocol, s.waiting.value.0, s.waiting.value.1, Some(ack)).0, waiting := None)
    case GiveUp => s.(waiting := None)
    case Deliver(p, command, succeeds) =>
      if !Alive(s, p) || (p, command) !in s.wire || !Newer(s.hubs[p], command) then s
      else
        var hub := s.hubs[p].(latest := Some(command));
        s.(hubs := s.hubs[p := if !command.active then hub.(active := false)
                               else if succeeds then hub.(active := true) else hub])
    case Acknowledge(p, ack) =>
      if !Alive(s, p) || !HonestAck(s.hubs[p], ack) then s else s.(acks := s.acks + {(p, ack)})
    case StartGeneration(p) =>
      if !Alive(s, p) || !s.hubs[p].active then s else s.(hubs := s.hubs[p := s.hubs[p].(writing := true)])
    case EndGeneration(p) =>
      if p !in s.hubs then s else s.(hubs := s.hubs[p := s.hubs[p].(writing := false)])
  }

  function Run(s: System, es: seq<Event>): System {
    if es == [] then s else Step(Run(s, es[..|es| - 1]), es[|es| - 1])
  }

  /** The process schedules backups or is still writing one. */
  predicate Busy(s: System, p: Proc) {
    Alive(s, p) && (s.hubs[p].active || s.hubs[p].writing)
  }

  // ---- invariant --------------------------------------------------------------------------------

  /** Epochs on the wire never exceed the counter and never repeat. */
  ghost predicate WireOrdered(s: System) {
    && (forall m :: m in s.wire ==> m.1.epoch <= s.protocol.epoch)
    && (forall m, n :: m in s.wire && n in s.wire && m.1.epoch == n.1.epoch ==> m == n)
    && (forall m :: m in s.wire ==> m.0 in s.hubs)
  }

  /** Only the owner schedules or writes. */
  ghost predicate OnlyOwnerBusy(s: System) {
    forall p: Proc :: Busy(s, p) ==> s.protocol.owner == Some(p)
  }

  /** No activation still on the wire can take effect at a process that is not the owner. */
  ghost predicate StrayActivationsStale(s: System) {
    forall m :: m in s.wire && m.1.active && Alive(s, m.0) && s.protocol.owner != Some(m.0) ==>
                  !Newer(s.hubs[m.0], m.1)
  }

  ghost predicate EndpointsSane(s: System) {
    forall p :: p in s.hubs && s.hubs[p].latest.Some? ==>
      && (p, s.hubs[p].latest.value) in s.wire
      && (!s.hubs[p].latest.value.active ==> !s.hubs[p].active)
  }

  /**
   An acknowledged command that is still the endpoint's latest left it in the state it reported; after a
   pause it is quiet.
  */
  ghost predicate AcksHonest(s: System) {
    forall a :: a in s.acks && a.1.applied ==>
      && a.0 in s.hubs && s.hubs[a.0].latest.Some?
      && a.1.epoch <= s.hubs[a.0].latest.value.epoch
      && (a.1.epoch == s.hubs[a.0].latest.value.epoch ==>
            && a.1.active == s.hubs[a.0].active
            && (!s.hubs[a.0].latest.value.active ==> !s.hubs[a.0].active && !s.hubs[a.0].writing))
  }

  ghost predicate CallCurrent(s: System) {
    s.waiting.Some? ==> s.waiting.value in s.wire && s.waiting.value.1.epoch == s.protocol.epoch
  }

  ghost predicate Inv(s: System) {
    && WireOrdered(s) && OnlyOwnerBusy(s) && StrayActivationsStale(s)
    && EndpointsSane(s) && AcksHonest(s) && CallCurrent(s)
  }

  lemma BeginKeepsInv(s: System, p: Proc, active: bool, requestId: RequestId, exited: set<Proc>)
    requires Inv(s)
    ensures Inv(Step(s, BeginCall(p, active, requestId, exited)))
  {
    var s' := Step(s, BeginCall(p, active, requestId, exited));
    if s.waiting.None? && p in s.hubs && ExitsReal(s, exited) {
      forall q: Proc | Busy(s', q) ensures s'.protocol.owner == Some(q) {
        assert Busy(s, q);
      }
    }
  }

  lemma ReplyKeepsInv(s: System, ack: Ack)
    requires Inv(s)
    ensures Inv(Step(s, Reply(ack)))
  {
    var s' := Step(s, Reply(ack));
    if s'.protocol.owner != s.protocol.owner {
      var (p, command) := s.waiting.value;
      assert (p, ack) in s.acks && ack.applied;
      assert (p, s.hubs[p].latest.value) in s.wire;
      assert s.hubs[p].latest.value == command;
      forall q: Proc ensures !Busy(s', q) {
        assert Busy(s', q) == Busy(s, q);
      }
    }
  }

  lemma DeliverKeepsInv(s: System, p: Proc, command: Command, succeeds: bool)
    requires Inv(s)
    ensures Inv(Step(s, Deliver(p, command, succeeds)))
  {
    var s' := Step(s, Deliver(p, command, succeeds));
    if s' != s {
      assert command.active ==> s.protocol.owner == Some(p);
      forall q: Proc | Busy(s', q) ensures s'.protocol.owner == Some(q) {
        if q != p || !command.active { assert Busy(s, q); }
      }
    }
  }

  lemma StepKeepsInv(s: System, e: Event)
    requires Inv(s)
    ensures Inv(Step(s, e))
  {
    match e
    case BeginCall(p, active, requestId, exited) => BeginKeepsInv(s, p, active, requestId, exited);
    case Reply(ack) => ReplyKeepsInv(s, ack);
    case Deliver(p, command, succeeds) => DeliverKeepsInv(s, p, command, succeeds);
    case Acknowledge(p, ack) => AcknowledgeKeepsInv(s, p, ack);
    case _ => QuietStepKeepsInv(s, e);
  }

  lemma AcknowledgeKeepsInv(s: System, p: Proc, ack: Ack)
    requires Inv(s)
    ensures Inv(Step(s, Acknowledge(p, ack)))
  {
  }

  lemma QuietStepKeepsInv(s: System, e: Event)
    requires Inv(s) && (e.Spawn? || e.Die? || e.GiveUp? || e.StartGeneration? || e.EndGeneration?)
    ensures Inv(Step(s, e))
  {
    var s' := Step(s, e);
    forall q: Proc | Busy(s', q) ensures s'.protocol.owner == Some(q) {
      assert Busy(s, q);
    }
  }

  lemma {:induction false} RunKeepsInv(s: System, es: seq<Event>)
    requires Inv(s)
    ensures Inv(Run(s, es))
  {
    if es != [] {
      RunKeepsInv(s, es[..|es| - 1]);
      StepKeepsInv(Run(s, es[..|es| - 1]), es[|es| - 1]);
    }
  }

  // ---- theorems -----------------------------------------------------------------------------------

  /** At most one hub process ever schedules or writes backups, in any run. */
  lemma AtMostOneBackupOwner(es: seq<Event>, p: Proc, q: Proc)
    requires Busy(Run(BOOT, es), p) && Busy(Run(BOOT, es), q)
    ensures p == q
    ensures Run(BOOT, es).protocol.owner == Some(p)
  {
    RunKeepsInv(BOOT, es);
  }

  predicate Activates(e: Event, p: Proc) { e.BeginCall? && e.active && e.p == p }

  lemma OnlyActivationMakesOwner(s: System, e: Event, p: Proc)
    requires s.protocol.owner != Some(p) && !Activates(e, p)
    ensures Step(s, e).protocol.owner != Some(p)
  {
  }

  lemma {:induction false} StaysUnowned(s: System, es: seq<Event>, p: Proc)
    requires s.protocol.owner != Some(p) && forall i :: 0 <= i < |es| ==> !Activates(es[i], p)
    ensures Run(s, es).protocol.owner != Some(p)
  {
    if es != [] {
      var n := |es| - 1;
      assert forall i :: 0 <= i < n ==> es[..n][i] == es[i];
      StaysUnowned(s, es[..n], p);
      OnlyActivationMakesOwner(Run(s, es[..n]), es[n], p);
    }
  }

  /**
   A live hub that is not the owner stays quiet until the supervisor itself starts a new activation
   for it, whatever old commands are delivered late.
  */
  lemma StaleCommandsCannotReactivate(s: System, es: seq<Event>, p: Proc)
    requires Inv(s) && s.protocol.owner != Some(p)
    requires forall i :: 0 <= i < |es| ==> !Activates(es[i], p)
    ensures !Busy(Run(s, es), p) && Run(s, es).protocol.owner != Some(p)
  {
    RunKeepsInv(s, es);
    StaysUnowned(s, es, p);
  }

  /** A confirmed pause leaves the hub quiet and nobody the owner. */
  lemma ConfirmedPauseReleases(s: System, ack: Ack)
    requires Inv(s) && s.waiting.Some? && !s.waiting.value.1.active
    requires (s.waiting.value.0, ack) in s.acks && ack.requestId == s.waiting.value.1.requestId
    requires Confirms(s.waiting.value.1, Some(ack))
    ensures !Busy(s, s.waiting.value.0)
    ensures Step(s, Reply(ack)).protocol.owner != Some(s.waiting.value.0)
  {
    var (p, command) := s.waiting.value;
    assert (p, s.hubs[p].latest.value) in s.wire;
    assert s.hubs[p].latest.value == command;
  }

  /**
   An activation succeeds only on an acknowledgement that the hub applied it: unless a newer command has
   reached the hub meanwhile, it schedules backups now.
  */
  lemma ConfirmedActivationSchedules(s: System, ack: Ack)
    requires Inv(s) && s.waiting.Some? && s.waiting.value.1.active
    requires (s.waiting.value.0, ack) in s.acks && ack.requestId == s.waiting.value.1.requestId
    requires Settle(s.protocol, s.waiting.value.0, s.waiting.value.1, Some(ack)).1
    ensures var (p, command) := s.waiting.value;
      && ack.applied && !ack.error && ack.active && ack.epoch == command.epoch
      && p in s.hubs && s.hubs[p].latest.Some? && command.epoch <= s.hubs[p].latest.value.epoch
      && (s.hubs[p].latest == Some(command) ==> s.hubs[p].active)
  {
  }

  /**
   Ownership moves away from a process only by a confirmed pause of it, or once the supervisor
   counts it as exited.
  */
  lemma OwnershipReleasedOnlyBy(s: System, e: Event, p: Proc)
    requires Inv(s) && s.protocol.owner == Some(p)
    requires Step(s, e).protocol.owner != Some(p)
    ensures (e.BeginCall? && p in e.exited && !Alive(s, p))
            || (e.Reply? && s.waiting.Some? && s.waiting.value.0 == p && !s.waiting.value.1.active
                && Confirms(s.waiting.value.1, Some(e.ack)))
  {
  }
}
