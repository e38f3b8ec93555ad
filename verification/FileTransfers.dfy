/**
 The target side of whole-file transfers. Calls interleave at every await; the process may
 crash at any step; other programs may create or remove destination files at any time. Each
 event is what happens between two awaits of one call.
*/
module FileTransfers {
  import opened Prelude

  type Id = nat
  type CallId = nat
  type Name = string
  type byte = bv8
  type Bytes = seq<byte>

  const CHUNK := 512 * 1024
  const CAPACITY := 4

  /** SHA-256, taken as injective: the digest of some bytes determines them. */
  datatype Digest = Sha(content: Bytes)

  datatype Mode = Read | Write
  datatype TransferState = Active | Completed | Aborted | OutcomeUnknown

  /** A receipt. Everything but state, offset and digest is fixed when the id is reserved. */
  datatype Saved = Saved(mode: Mode, dest: Name, size: nat, declared: Option<Digest>,
                         state: TransferState, offset: nat, digest: Option<Digest>)

  /**
   An open transfer: the accepted chunks, what the running hash has absorbed, and (history only)
   the offset each accepted chunk was requested at.
  */
  datatype Entry = Entry(saved: Saved, chunks: seq<Bytes>, hashed: Bytes, starts: seq<nat>)

  /**
   All that exists for one transfer id: the in-memory entry, the receipt file, the staging file,
   and (history only) the contents of every successful link.
  */
  datatype Slot = Slot(active: Option<Entry>, receipt: Option<Saved>, staging: Option<Bytes>, published: seq<Bytes>)

  const VACANT := Slot(None, None, None, [])

  datatype Request =
    | Begin(mode: Mode, dest: Name, size: nat, declared: Option<Digest>)
    | Chunk(offset: nat, bytes: Bytes)
    | Finish(sha: Option<Digest>)
    | Abort
    | Status

  /** Where a call stands between two awaits. */
  datatype Pc =
    | BeginCheck | BeginReserve | BeginOpen | BeginRegister
    | ChunkCheck | Writing(written: nat)
    | FinishCheck | Linking | Unlinking | Closing
    | AbortStart | AbortCleanup(aborting: Saved) | Saving(saving: Saved)
    | Inspect

  /** One segment's effect: the slot, where the call goes (None: it returns), whether it linked. */
  datatype Move = Move(slot: Slot, pc: Option<Pc>, links: bool)

  function Return(slot: Slot): Move { Move(slot, None, false) }
  function Goto(slot: Slot, pc: Pc): Move { Move(slot, Some(pc), false) }

  function Reserved(request: Request): Saved
    requires request.Begin?
  {
    Saved(request.mode, request.dest, request.size, request.declared, Active, 0, None)
  }

  // ---- the segments of each operation -------------------------------------------------------------

  /** Destination check, exclusive receipt, exclusive staging file, registration. */
  function BeginMove(slot: Slot, request: Request, pc: Pc, ok: bool, taken: bool): Move
    requires request.Begin?
  {
    match pc
    case BeginCheck =>
      if !ok || (request.mode.Write? && taken) then Return(slot) else Goto(slot, BeginReserve)
    case BeginReserve =>
      if !ok || slot.receipt.Some? then Return(slot)
      else Goto(slot.(receipt := Some(Reserved(request))), BeginOpen)
    case BeginOpen =>
      if !ok || (request.mode.Write? && slot.staging.Some?) then Return(slot)
      else Goto(if request.mode.Write? then slot.(staging := Some([])) else slot, BeginRegister)
    case BeginRegister =>
      if !ok then Return(slot.(staging := None))
      else Return(slot.(receipt := Some(Reserved(request)), active := Some(Entry(Reserved(request), [], [], []))))
    case _ => Return(slot)
  }

  /** pwrite: overwrite or extend, never leaving a hole. */
  function WriteAt(file: Bytes, at: nat, bytes: Bytes): Bytes
    requires at <= |file|
  {
    if at + |bytes| <= |file| then file[..at] + bytes + file[at + |bytes|..] else file[..at] + bytes
  }

  function Min(a: nat, b: nat): nat { if a <= b then a else b }

  predicate ChunkAccepted(saved: Saved, offset: nat, bytes: Bytes) {
    && offset == saved.offset && saved.offset < saved.size
    && 0 < |bytes| <= Min(CHUNK, saved.size - saved.offset)
  }

  /** The offset fence, then a write loop in which every write may be partial or fail. */
  function ChunkMove(slot: Slot, request: Request, pc: Pc, ok: bool, n: nat): Move
    requires request.Chunk?
  {
    if slot.active.None? then Return(slot)
    else
      var entry := slot.active.value;
      var saved := entry.saved;
      match pc
      case ChunkCheck =>
        if saved.mode.Read? then
          // the source bytes go back to the caller; only the offset moves here
          if !ok || request.offset != saved.offset || n == 0 || saved.offset + n > saved.size then Return(slot)
          else Return(slot.(active := Some(entry.(saved := saved.(offset := saved.offset + n)))))
        else if !ok || !ChunkAccepted(saved, request.offset, request.bytes) then Return(slot)
        else Goto(slot, Writing(0))
      case Writing(written) =>
        if slot.staging.None? || saved.offset + written > |slot.staging.value| || written + n > |request.bytes| then
          Return(slot)
        else
          var wrote := slot.(staging := Some(WriteAt(slot.staging.value, saved.offset + written,
                                                     request.bytes[written..written + n])));
          if !ok || n == 0 then Return(wrote)
          else if written + n < |request.bytes| then Goto(wrote, Writing(written + n))
          else Return(wrote.(active := Some(Entry(saved.(offset := saved.offset + |request.bytes|),
                                                  entry.chunks + [request.bytes],
                                                  entry.hashed + request.bytes,
                                                  entry.starts + [request.offset]))))
      case _ => Return(slot)
  }

  /** What `finish` insists on before publication. */
  predicate ReadyToPublish(slot: Slot, sha: Option<Digest>) {
    && slot.active.Some?
    && var entry := slot.active.value;
    && entry.saved.offset == entry.saved.size
    && (entry.saved.mode.Write? ==>
          && Some(Sha(entry.hashed)) == (if entry.saved.declared.Some? then entry.saved.declared else sha)
          && slot.staging.Some?
          && |slot.staging.value| == entry.saved.size
          && Sha(slot.staging.value) == Sha(entry.hashed))
  }

  function FinishMove(slot: Slot, request: Request, pc: Pc, ok: bool, taken: bool): Move
    requires request.Finish?
  {
    match pc
    case FinishCheck =>
      if !ok || !ReadyToPublish(slot, request.sha) then Return(slot)
      else Goto(slot, if slot.active.value.saved.mode.Write? then Linking else Closing)
    case Linking =>
      if !ok || slot.active.None? || slot.staging.None? || taken then Return(slot)
      else Move(slot.(published := slot.published + [slot.staging.value]), Some(Unlinking), true)
    case Unlinking =>
      if !ok then Return(slot) else Goto(slot.(staging := None), Closing)
    case Closing =>
      if !ok || slot.active.None? then Return(slot)
      else
        var entry := slot.active.value;
        Goto(slot.(active := None), Saving(entry.saved.(state := Completed, digest := Some(Sha(entry.hashed)))))
    case Saving(saving) =>
      Return(if ok then slot.(receipt := Some(saving)) else slot)
    case _ => Return(slot)
  }

  function AbortMove(slot: Slot, pc: Pc, ok: bool): Move {
    match pc
    case AbortStart =>
      if !ok || slot.active.None? then Return(slot)
      else Goto(slot.(active := None), AbortCleanup(slot.active.value.saved))
    case AbortCleanup(aborting) =>
      if ok then Goto(slot.(staging := None), Saving(aborting.(state := Aborted)))
      else Goto(slot, Saving(aborting.(state := OutcomeUnknown)))
    case Saving(saving) =>
      Return(if ok then slot.(receipt := Some(saving)) else slot)
    case _ => Return(slot)
  }

  /** The next segment of a call. `ok` is the fate of its await, `n` a byte count. */
  function Segment(slot: Slot, request: Request, pc: Pc, ok: bool, n: nat, taken: bool): Move {
    match request
    case Begin(_, _, _, _) => BeginMove(slot, request, pc, ok, taken)
    case Chunk(_, _) => ChunkMove(slot, request, pc, ok, n)
    case Finish(_) => FinishMove(slot, request, pc, ok, taken)
    case Abort => AbortMove(slot, pc, ok)
    case Status => Return(slot)
  }

  // ---- the process, the disk and everybody else ----------------------------------------------------

  datatype Call = Call(id: Id, request: Request, pc: Pc)

  datatype System = System(
    slots: map<Id, Slot>, busy: set<Id>, calls: map<CallId, Call>,
    targets: map<Name, Bytes>,   // destination files
    links: map<Name, nat>,       // how often a transfer published there
    removals: map<Name, nat>)    // how often somebody else removed the file there

  const EMPTY := System(map[], {}, map[], map[], map[], map[])

  datatype Event =
    | Enter(c: CallId, id: Id, request: Request, authorized: bool)
    | Advance(c: CallId, ok: bool, n: nat)
    | Expire(c: CallId, id: Id)
    | Crash
    | OthersCreate(name: Name, bytes: Bytes)
    | OthersRemove(name: Name)

  function SlotOf(s: System, id: Id): Slot {
    if id in s.slots then s.slots[id] else VACANT
  }

  function Count(m: map<Name, nat>, name: Name): nat {
    if name in m then m[name] else 0
  }

  function ActiveIds(s: System): set<Id> {
    set id | id in s.slots && s.slots[id].active.Some?
  }

  function FirstPc(request: Request, found: bool): Pc {
    if request.Begin? then BeginCheck
    else if !found || request.Status? then Inspect
    else if request.Chunk? then ChunkCheck
    else if request.Finish? then FinishCheck
    else AbortStart
  }

  /** The synchronous head of `execute`: single flight, authority, capacity. */
  function EnterStep(s: System, c: CallId, id: Id, request: Request, authorized: bool): System {
    if c in s.calls || id in s.busy || !authorized then s
    else if request.Begin? && |ActiveIds(s)| + |s.busy + {id}| > CAPACITY then s
    else s.(busy := s.busy + {id},
            calls := s.calls[c := Call(id, request, FirstPc(request, SlotOf(s, id).active.Some?))])
  }

  /** `expire`: a busy or unknown id is left alone, otherwise the transfer is aborted. */
  function ExpireStep(s: System, c: CallId, id: Id): System {
    if c in s.calls || id in s.busy || SlotOf(s, id).active.None? then s
    else s.(busy := s.busy + {id},
            slots := s.slots[id := s.slots[id].(active := None)],
            calls := s.calls[c := Call(id, Abort, AbortCleanup(s.slots[id].active.value.saved))])
  }

  /** The destination a segment looks at. */
  function DestOf(slot: Slot, request: Request): Option<Name> {
    if request.Begin? then Some(request.dest)
    else if slot.active.Some? then Some(slot.active.value.saved.dest)
    else None
  }

  function AdvanceStep(s: System, c: CallId, ok: bool, n: nat): System {
    if c !in s.calls then s
    else
      var Call(id, request, pc) := s.calls[c];
      var slot := SlotOf(s, id);
      var dest := DestOf(slot, request);
      var m := Segment(slot, request, pc, ok, n, dest.Some? && dest.value in s.targets);
      var s1 := s.(
        slots := s.slots[id := m.slot],
        calls := if m.pc.Some? then s.calls[c := Call(id, request, m.pc.value)] else s.calls - {c},
        busy := if m.pc.Some? then s.busy else s.busy - {id});
      if m.links && dest.Some? && slot.staging.Some? then
        s1.(targets := s1.targets[dest.value := slot.staging.value],
            links := s1.links[dest.value := Count(s1.links, dest.value) + 1])
      else s1
  }

  function Step(s: System, e: Event): System {
    match e
    case Enter(c, id, request, authorized) => EnterStep(s, c, id, request, authorized)
    case Advance(c, ok, n) => AdvanceStep(s, c, ok, n)
    case Expire(c, id) => ExpireStep(s, c, id)
    case Crash => s.(slots := map id | id in s.slots :: s.slots[id].(active := None), busy := {}, calls := map[])
    case OthersCreate(name, bytes) =>
      if name in s.targets then s else s.(targets := s.targets[name := bytes])
    case OthersRemove(name) =>
      if name !in s.targets then s
      else s.(targets := s.targets - {name}, removals := s.removals[name := Count(s.removals, name) + 1])
  }

  function Run(s: System, es: seq<Event>): System {
    if es == [] then s else Step(Run(s, es[..|es| - 1]), es[|es| - 1])
  }

  // ---- single flight and capacity -----------------------------------------------------------------

  predicate Beginning(call: Call) {
    call.pc.BeginCheck? || call.pc.BeginReserve? || call.pc.BeginOpen? || call.pc.BeginRegister?
  }

  ghost predicate BeginsFor(s: System, id: Id) {
    exists c :: c in s.calls && s.calls[c].id == id && Beginning(s.calls[c])
  }

  ghost predicate AdmittedId(s: System, id: Id) {
    SlotOf(s, id).active.Some? || BeginsFor(s, id)
  }

  /** Ids that are active or whose begin has passed the capacity check. */
  ghost function Admitted(s: System): set<Id> {
    set id | id in s.slots.Keys + s.busy && AdmittedId(s, id)
  }

  ghost predicate SingleFlight(s: System) {
    && (forall c :: c in s.calls ==> s.calls[c].id in s.busy)
    && (forall c, d :: c in s.calls && d in s.calls && s.calls[c].id == s.calls[d].id ==> c == d)
  }

  ghost predicate WithinCapacity(s: System) {
    |Admitted(s)| <= CAPACITY
  }

  lemma UnionCard<T>(a: set<T>, b: set<T>)
    ensures |a + b| <= |a| + |b|
  {
    assert a + b == a + (b - a);
    SubsetCard(b - a, b);
  }

  /** Only registration makes a transfer active, and no segment goes back to the begin phase. */
  lemma SegmentAdmitsNothing(slot: Slot, request: Request, pc: Pc, ok: bool, n: nat, taken: bool)
    ensures var m := Segment(slot, request, pc, ok, n, taken);
      && (m.slot.active.Some? ==> slot.active.Some? || pc.BeginRegister?)
      && (m.pc.Some? && Beginning(Call(0, request, m.pc.value)) ==> Beginning(Call(0, request, pc)))
  {
  }

  lemma AdvanceSingleFlight(s: System, c: CallId, ok: bool, n: nat)
    requires SingleFlight(s)
    ensures SingleFlight(AdvanceStep(s, c, ok, n))
  {
  }

  lemma AdvanceAdmitsNothing(s: System, c: CallId, ok: bool, n: nat, x: Id)
    requires SingleFlight(s) && AdmittedId(AdvanceStep(s, c, ok, n), x)
    ensures AdmittedId(s, x) && x in s.slots.Keys + s.busy
  {
    if c in s.calls {
      var Call(id, request, pc) := s.calls[c];
      var slot := SlotOf(s, id);
      var dest := DestOf(slot, request);
      var taken := dest.Some? && dest.value in s.targets;
      SegmentAdmitsNothing(slot, request, pc, ok, n, taken);
      var s' := AdvanceStep(s, c, ok, n);
      assert SlotOf(s', id) == Segment(slot, request, pc, ok, n, taken).slot;
      if BeginsFor(s', x) {
        var d :| d in s'.calls && s'.calls[d].id == x && Beginning(s'.calls[d]);
        assert d in s.calls && s.calls[d].id == x && Beginning(s.calls[d]);
      } else if x == id && slot.active.None? {
        assert s.calls[c].id == id && Beginning(s.calls[c]);
      }
    }
  }

  lemma AdvanceAdmission(s: System, c: CallId, ok: bool, n: nat)
    requires SingleFlight(s) && WithinCapacity(s)
    ensures SingleFlight(AdvanceStep(s, c, ok, n)) && WithinCapacity(AdvanceStep(s, c, ok, n))
  {
    AdvanceSingleFlight(s, c, ok, n);
    var s' := AdvanceStep(s, c, ok, n);
    forall x | x in Admitted(s') ensures x in Admitted(s) {
      AdvanceAdmitsNothing(s, c, ok, n, x);
    }
    SubsetCard(Admitted(s'), Admitted(s));
  }

  lemma EnterAdmits(s: System, c: CallId, id: Id, request: Request, authorized: bool, x: Id)
    requires SingleFlight(s) && AdmittedId(EnterStep(s, c, id, request, authorized), x)
    ensures x in ActiveIds(s) + (s.busy + {id})
    ensures !request.Begin? ==> x in Admitted(s)
  {
    var s' := EnterStep(s, c, id, request, authorized);
    if BeginsFor(s', x) {
      var d :| d in s'.calls && s'.calls[d].id == x && Beginning(s'.calls[d]);
      if d != c || s' == s { assert d in s.calls && s.calls[d].id == x; }
    }
  }

  lemma EnterSingleFlight(s: System, c: CallId, id: Id, request: Request, authorized: bool)
    requires SingleFlight(s)
    ensures SingleFlight(EnterStep(s, c, id, request, authorized))
  {
  }

  /** A new begin is admitted only while active and busy ids, counted together, stay within the capacity. */
  lemma EnterCapacity(s: System, c: CallId, id: Id, request: Request, authorized: bool)
    requires SingleFlight(s) && WithinCapacity(s)
    ensures WithinCapacity(EnterStep(s, c, id, request, authorized))
  {
    var s' := EnterStep(s, c, id, request, authorized);
    if s' != s && request.Begin? {
      assert |ActiveIds(s)| + |s.busy + {id}| <= CAPACITY;
      AdmittedWithin(s, c, id, request, authorized);
      UnionCard(ActiveIds(s), s.busy + {id});
    } else if s' != s {
      AdmittedSame(s, c, id, request, authorized);
    }
  }

  lemma AdmittedWithin(s: System, c: CallId, id: Id, request: Request, authorized: bool)
    requires SingleFlight(s)
    ensures var s' := EnterStep(s, c, id, request, authorized);
            s' == s || |Admitted(s')| <= |ActiveIds(s) + (s.busy + {id})|
  {
    var t := Admitted(EnterStep(s, c, id, request, authorized));
    forall x | x in t ensures x in ActiveIds(s) + (s.busy + {id}) { EnterAdmits(s, c, id, request, authorized, x); }
    SubsetCard(t, ActiveIds(s) + (s.busy + {id}));
  }

  lemma AdmittedSame(s: System, c: CallId, id: Id, request: Request, authorized: bool)
    requires SingleFlight(s) && !request.Begin?
    ensures |Admitted(EnterStep(s, c, id, request, authorized))| <= |Admitted(s)|
  {
    var t := Admitted(EnterStep(s, c, id, request, authorized));
    forall x | x in t ensures x in Admitted(s) { EnterAdmits(s, c, id, request, authorized, x); }
    SubsetCard(t, Admitted(s));
  }

  lemma EnterAdmission(s: System, c: CallId, id: Id, request: Request, authorized: bool)
    requires SingleFlight(s) && WithinCapacity(s)
    ensures SingleFlight(EnterStep(s, c, id, request, authorized))
    ensures WithinCapacity(EnterStep(s, c, id, request, authorized))
  {
    EnterSingleFlight(s, c, id, request, authorized);
    EnterCapacity(s, c, id, request, authorized);
  }

  /** Expiry, crashes and other programs admit nobody. */
  lemma OthersAdmitNothing(s: System, e: Event, x: Id)
    requires SingleFlight(s) && !e.Enter? && !e.Advance? && AdmittedId(Step(s, e), x)
    ensures AdmittedId(s, x) && x in s.slots.Keys + s.busy
  {
    var s' := Step(s, e);
    if BeginsFor(s', x) {
      var d :| d in s'.calls && s'.calls[d].id == x && Beginning(s'.calls[d]);
      assert d in s.calls && s.calls[d].id == x && Beginning(s.calls[d]);
    }
  }

  lemma OtherAdmission(s: System, e: Event)
    requires SingleFlight(s) && WithinCapacity(s) && !e.Enter? && !e.Advance?
    ensures SingleFlight(Step(s, e)) && WithinCapacity(Step(s, e))
  {
    var s' := Step(s, e);
    forall x | x in Admitted(s') ensures x in Admitted(s) {
      OthersAdmitNothing(s, e, x);
    }
    SubsetCard(Admitted(s'), Admitted(s));
  }

  lemma {:induction false} RunAdmission(es: seq<Event>)
    ensures SingleFlight(Run(EMPTY, es)) && WithinCapacity(Run(EMPTY, es))
  {
    if es == [] {
      assert Admitted(EMPTY) == {};
    } else {
      var s, e := Run(EMPTY, es[..|es| - 1]), es[|es| - 1];
      RunAdmission(es[..|es| - 1]);
      match e
      case Enter(c, id, request, authorized) => EnterAdmission(s, c, id, request, authorized);
      case Advance(c, ok, n) => AdvanceAdmission(s, c, ok, n);
      case _ => OtherAdmission(s, e);
    }
  }

  /** At most one operation per id is in flight and at most four transfers are ever active. */
  lemma OneOperationPerIdFourTransfers(es: seq<Event>)
    ensures var s := Run(EMPTY, es);
      && |set id | id in s.slots && s.slots[id].active.Some?| <= 4
      && (forall c, d :: c in s.calls && d in s.calls && s.calls[c].id == s.calls[d].id ==> c == d)
  {
    RunAdmission(es);
    var s := Run(EMPTY, es);
    SubsetCard(ActiveIds(s), Admitted(s));
    assert ActiveIds(s) == set id | id in s.slots && s.slots[id].active.Some?;
  }
}
