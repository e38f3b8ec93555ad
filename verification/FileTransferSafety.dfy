/**
 What a transfer publishes: the staged bytes are the accepted chunks, a link puts exactly them at
 a free destination, and an id cannot publish again over crashes, restarts and retries unless
 somebody removed the published file.
*/
module FileTransferSafety {
  import opened Prelude
  import opened FileTransfers

  function Concat(chunks: seq<Bytes>): Bytes {
    if chunks == [] then [] else Concat(chunks[..|chunks| - 1]) + chunks[|chunks| - 1]
  }

  /** The fields of a receipt that never change. */
  predicate SameFixed(a: Saved, b: Saved) {
    a.mode == b.mode && a.dest == b.dest && a.size == b.size && a.declared == b.declared
  }

  /** Every chunk was requested at the offset where the chunks before it end. */
  predicate InOrder(chunks: seq<Bytes>, starts: seq<nat>) {
    |starts| == |chunks| && forall i :: 0 <= i < |chunks| ==> starts[i] == |Concat(chunks[..i])|
  }

  /** The running hash has absorbed exactly the accepted chunks, offset many bytes, in order. */
  predicate EntryOk(entry: Entry) {
    && entry.saved.state.Active? && entry.saved.offset <= entry.saved.size
    && InOrder(entry.chunks, entry.starts)
    && (entry.saved.mode.Write? ==> entry.hashed == Concat(entry.chunks) && |entry.hashed| == entry.saved.offset)
  }

  /** Below the offset, the staging file holds what was hashed. */
  predicate StagedPrefix(slot: Slot) {
    slot.active.Some? && slot.active.value.saved.mode.Write? && slot.staging.Some? ==>
      && |slot.staging.value| >= slot.active.value.saved.offset == |slot.active.value.hashed|
      && slot.staging.value[..slot.active.value.saved.offset] == slot.active.value.hashed
  }

  /** Everything ever linked for this id: same bytes each time, of the reserved size and checksum. */
  predicate PublishedOk(slot: Slot) {
    slot.published != [] ==>
      && slot.receipt.Some? && slot.receipt.value.mode.Write?
      && |slot.published[0]| == slot.receipt.value.size
      && (slot.receipt.value.declared.Some? ==> slot.receipt.value.declared == Some(Sha(slot.published[0])))
      && (forall i :: 0 <= i < |slot.published| ==> slot.published[i] == slot.published[0])
      && (slot.active.Some? ==>
            slot.active.value.saved.offset == slot.active.value.saved.size
            && slot.active.value.hashed == slot.published[0])
  }

  /** A receipt that says completed is true: all bytes went through, and a write was linked with that digest. */
  predicate CompletedTrue(slot: Slot, saved: Saved) {
    saved.state.Completed? ==>
      && saved.offset == saved.size
      && (saved.mode.Write? ==> slot.published != [] && saved.digest == Some(Sha(slot.published[0])))
  }

  predicate SlotOk(slot: Slot) {
    && (slot.active.Some? ==>
          slot.receipt.Some? && SameFixed(slot.active.value.saved, slot.receipt.value) && EntryOk(slot.active.value))
    && (slot.staging.Some? ==> slot.receipt.Some? && slot.receipt.value.mode.Write?)
    && StagedPrefix(slot) && PublishedOk(slot)
    && (slot.receipt.Some? ==> CompletedTrue(slot, slot.receipt.value))
  }

  /** What a suspended call may rely on when it resumes. */
  predicate WorkOk(slot: Slot, request: Request, pc: Pc) {
    match pc
    case BeginOpen =>
      request.Begin? && slot == Slot(None, Some(Reserved(request)), None, [])
    case BeginRegister =>
      && request.Begin?
      && slot == Slot(None, Some(Reserved(request)), if request.mode.Write? then Some([]) else None, [])
    case Writing(written) =>
      && request.Chunk? && slot.active.Some? && slot.active.value.saved.mode.Write?
      && ChunkAccepted(slot.active.value.saved, request.offset, request.bytes)
      && written < |request.bytes|
      && (slot.staging.Some? ==>
            && slot.active.value.saved.offset + written <= |slot.staging.value|
            && slot.staging.value[slot.active.value.saved.offset..slot.active.value.saved.offset + written]
               == request.bytes[..written])
    case Linking => request.Finish? && ReadyToPublish(slot, request.sha) && slot.active.value.saved.mode.Write?
    case Unlinking => request.Finish? && slot.active.Some? && slot.published != []
    case Closing =>
      && request.Finish? && slot.active.Some?
      && slot.active.value.saved.offset == slot.active.value.saved.size
      && (slot.active.value.saved.mode.Write? ==> slot.published != [])
    case AbortCleanup(aborting) =>
      request.Abort? && slot.active.None? && slot.receipt.Some? && SameFixed(aborting, slot.receipt.value)
    case Saving(saving) =>
      && (request.Abort? || request.Finish?)
      && slot.active.None? && slot.receipt.Some? && SameFixed(saving, slot.receipt.value)
      && CompletedTrue(slot, saving)
    case _ => true
  }

  lemma BeginKeeps(slot: Slot, request: Request, pc: Pc, ok: bool, taken: bool)
    requires request.Begin? && SlotOk(slot) && WorkOk(slot, request, pc)
    ensures var m := BeginMove(slot, request, pc, ok, taken);
            SlotOk(m.slot) && (m.pc.Some? ==> WorkOk(m.slot, request, m.pc.value)) && m.slot.published == slot.published
  {
  }

  lemma WriteAtExtends(file: Bytes, at: nat, bytes: Bytes, start: nat)
    requires start <= at <= |file|
    ensures var r := WriteAt(file, at, bytes);
      && |r| >= at + |bytes| && r[..at] == file[..at] && r[at..at + |bytes|] == bytes
      && r[..start] == file[..start]
      && r[start..at + |bytes|] == file[start..at] + bytes
  {
  }

  /** What one partial write leaves in the staging file. */
  lemma PartialWrite(slot: Slot, request: Request, written: nat, n: nat)
    requires request.Chunk? && SlotOk(slot) && WorkOk(slot, request, Writing(written))
    requires slot.staging.Some? && written + n <= |request.bytes|
    ensures var offset := slot.active.value.saved.offset;
            var file := WriteAt(slot.staging.value, offset + written, request.bytes[written..written + n]);
      && |file| >= offset + written + n
      && file[..offset] == slot.active.value.hashed
      && file[offset..offset + written + n] == request.bytes[..written + n]
      && file[..offset + written + n] == slot.active.value.hashed + request.bytes[..written + n]
  {
    var offset := slot.active.value.saved.offset;
    WriteAtExtends(slot.staging.value, offset + written, request.bytes[written..written + n], offset);
    assert request.bytes[..written] + request.bytes[written..written + n] == request.bytes[..written + n];
    var file := WriteAt(slot.staging.value, offset + written, request.bytes[written..written + n]);
    assert file[..offset + written + n] == file[..offset] + file[offset..offset + written + n];
  }

  /** The last write of a chunk: the entry absorbs it. */
  lemma ChunkAbsorbed(entry: Entry, bytes: Bytes)
    requires EntryOk(entry) && entry.saved.mode.Write? && entry.saved.offset + |bytes| <= entry.saved.size
    ensures EntryOk(Entry(entry.saved.(offset := entry.saved.offset + |bytes|), entry.chunks + [bytes],
                          entry.hashed + bytes, entry.starts + [entry.saved.offset]))
  {
    var chunks := entry.chunks + [bytes];
    assert chunks[..|entry.chunks|] == entry.chunks;
    assert forall i :: 0 <= i < |entry.chunks| ==> chunks[..i] == entry.chunks[..i];
  }

  /** A staging file that still has the hashed bytes below the offset. */
  lemma RestagedOk(slot: Slot, file: Bytes)
    requires SlotOk(slot) && slot.active.Some? && slot.active.value.saved.mode.Write?
    requires |file| >= slot.active.value.saved.offset
    requires file[..slot.active.value.saved.offset] == slot.active.value.hashed
    ensures SlotOk(slot.(staging := Some(file)))
  {
  }

  lemma AbsorbedOk(slot: Slot, file: Bytes, bytes: Bytes)
    requires SlotOk(slot) && slot.active.Some? && slot.active.value.saved.mode.Write?
    requires 0 < |bytes| && slot.active.value.saved.offset + |bytes| <= slot.active.value.saved.size
    requires |file| >= slot.active.value.saved.offset + |bytes|
    requires file[..slot.active.value.saved.offset + |bytes|] == slot.active.value.hashed + bytes
    ensures var entry := slot.active.value;
            SlotOk(slot.(staging := Some(file),
                         active := Some(Entry(entry.saved.(offset := entry.saved.offset + |bytes|),
                                              entry.chunks + [bytes], entry.hashed + bytes,
                                              entry.starts + [entry.saved.offset]))))
  {
    ChunkAbsorbed(slot.active.value, bytes);
  }

  lemma WritingContinues(slot: Slot, request: Request, written: nat, n: nat)
    requires request.Chunk? && SlotOk(slot) && WorkOk(slot, request, Writing(written))
    requires slot.staging.Some? && written + n <= |request.bytes|
    ensures var offset := slot.active.value.saved.offset;
            var file := WriteAt(slot.staging.value, offset + written, request.bytes[written..written + n]);
            var wrote := slot.(staging := Some(file));
      && SlotOk(wrote)
      && (written + n < |request.bytes| ==> WorkOk(wrote, request, Writing(written + n)))
  {
    PartialWrite(slot, request, written, n);
    var offset := slot.active.value.saved.offset;
    RestagedOk(slot, WriteAt(slot.staging.value, offset + written, request.bytes[written..written + n]));
  }

  lemma WritingEnds(slot: Slot, request: Request, written: nat, n: nat)
    requires request.Chunk? && SlotOk(slot) && WorkOk(slot, request, Writing(written))
    requires slot.staging.Some? && n != 0 && written + n == |request.bytes|
    ensures var m := ChunkMove(slot, request, Writing(written), true, n);
            SlotOk(m.slot) && m.pc.None? && m.slot.published == slot.published
  {
    PartialWrite(slot, request, written, n);
    var offset := slot.active.value.saved.offset;
    assert request.bytes[..written + n] == request.bytes;
    AbsorbedOk(slot, WriteAt(slot.staging.value, offset + written, request.bytes[written..written + n]), request.bytes);
  }

  lemma ChunkWriteKeeps(slot: Slot, request: Request, written: nat, ok: bool, n: nat)
    requires request.Chunk? && SlotOk(slot) && WorkOk(slot, request, Writing(written))
    ensures var m := ChunkMove(slot, request, Writing(written), ok, n);
            SlotOk(m.slot) && (m.pc.Some? ==> WorkOk(m.slot, request, m.pc.value)) && m.slot.published == slot.published
  {
    if slot.staging.Some? && written + n <= |request.bytes| {
      if ok && n != 0 && written + n == |request.bytes| {
        WritingEnds(slot, request, written, n);
      } else {
        WritingContinues(slot, request, written, n);
      }
    }
  }

  lemma ChunkKeeps(slot: Slot, request: Request, pc: Pc, ok: bool, n: nat)
    requires request.Chunk? && SlotOk(slot) && WorkOk(slot, request, pc)
    ensures var m := ChunkMove(slot, request, pc, ok, n);
            SlotOk(m.slot) && (m.pc.Some? ==> WorkOk(m.slot, request, m.pc.value)) && m.slot.published == slot.published
  {
    match pc
    case Writing(written) => ChunkWriteKeeps(slot, request, written, ok, n);
    case _ =>
  }

  lemma FinishKeeps(slot: Slot, request: Request, pc: Pc, ok: bool, taken: bool)
    requires request.Finish? && SlotOk(slot) && WorkOk(slot, request, pc)
    ensures var m := FinishMove(slot, request, pc, ok, taken);
            SlotOk(m.slot) && (m.pc.Some? ==> WorkOk(m.slot, request, m.pc.value))
            && m.slot.published == if m.links then slot.published + [slot.staging.value] else slot.published
  {
  }

  lemma AbortKeeps(slot: Slot, request: Request, pc: Pc, ok: bool)
    requires request.Abort? && SlotOk(slot) && WorkOk(slot, request, pc)
    ensures var m := AbortMove(slot, pc, ok);
            SlotOk(m.slot) && (m.pc.Some? ==> WorkOk(m.slot, request, m.pc.value)) && m.slot.published == slot.published
  {
  }

  /** Each segment of each operation keeps the slot sound and hands over what the next one needs. */
  lemma SegmentKeeps(slot: Slot, request: Request, pc: Pc, ok: bool, n: nat, taken: bool)
    requires SlotOk(slot) && WorkOk(slot, request, pc)
    ensures var m := Segment(slot, request, pc, ok, n, taken);
      && SlotOk(m.slot) && (m.pc.Some? ==> WorkOk(m.slot, request, m.pc.value))
      && m.slot.published == (if m.links then slot.published + [slot.staging.value] else slot.published)
  {
    match request
    case Begin(_, _, _, _) => BeginKeeps(slot, request, pc, ok, taken);
    case Chunk(_, _) => ChunkKeeps(slot, request, pc, ok, n);
    case Finish(_) => FinishKeeps(slot, request, pc, ok, taken);
    case Abort => AbortKeeps(slot, request, pc, ok);
    case Status =>
  }

  /**
   A link happens only inside finish, at a destination that is free, and what appears there is the
   concatenation of the accepted chunks, at the reserved size and under the checksum that was
   declared at begin or else given at finish.
  */
  lemma LinkPublishesTheChunks(slot: Slot, request: Request, pc: Pc, ok: bool, n: nat, taken: bool)
    requires SlotOk(slot) && WorkOk(slot, request, pc) && Segment(slot, request, pc, ok, n, taken).links
    ensures request.Finish? && pc.Linking? && !taken && slot.active.Some? && slot.staging.Some?
    ensures var entry := slot.active.value;
      && slot.staging.value == Concat(entry.chunks)
      && |slot.staging.value| == entry.saved.size
      && Some(Sha(slot.staging.value)) == (if entry.saved.declared.Some? then entry.saved.declared else request.sha)
      && DestOf(slot, request) == Some(slot.receipt.value.dest)
  {
  }

  // ---- all ids together --------------------------------------------------------------------------

  /** Publications at a name never outnumber removals by others plus the file that is there now. */
  ghost predicate LinksAccounted(s: System) {
    forall name :: Count(s.links, name) <= Count(s.removals, name) + (if name in s.targets then 1 else 0)
  }

  ghost predicate SlotCounted(s: System, id: Id) {
    SlotOf(s, id).published != [] && SlotOf(s, id).receipt.Some? ==>
      |SlotOf(s, id).published| <= Count(s.links, SlotOf(s, id).receipt.value.dest)
  }

  ghost predicate SlotsOk(s: System) {
    && (forall id: Id :: SlotOk(SlotOf(s, id)))
    && (forall id: Id :: SlotCounted(s, id))
  }

  ghost predicate CallsOk(s: System) {
    forall c :: c in s.calls ==> WorkOk(SlotOf(s, s.calls[c].id), s.calls[c].request, s.calls[c].pc)
  }

  ghost predicate Inv(s: System) {
    SingleFlight(s) && SlotsOk(s) && CallsOk(s) && LinksAccounted(s)
  }

  /** A receipt, once reserved, keeps its fixed fields. */
  lemma SegmentKeepsReceipt(slot: Slot, request: Request, pc: Pc, ok: bool, n: nat, taken: bool)
    requires SlotOk(slot) && WorkOk(slot, request, pc) && slot.receipt.Some?
    ensures var m := Segment(slot, request, pc, ok, n, taken);
            m.slot.receipt.Some? && SameFixed(m.slot.receipt.value, slot.receipt.value)
  {
  }

  lemma AdvanceCounts(s: System, c: CallId, ok: bool, n: nat)
    requires Inv(s) && c in s.calls
    ensures var s' := AdvanceStep(s, c, ok, n); LinksAccounted(s') && SlotsOk(s')
  {
    AdvanceAccounted(s, c, ok, n);
    AdvanceOwnSlot(s, c, ok, n);
    hide AdvanceStep, SlotOk, SlotCounted;
    forall x: Id ensures SlotOk(SlotOf(AdvanceStep(s, c, ok, n), x)) && SlotCounted(AdvanceStep(s, c, ok, n), x) {
      if x != s.calls[c].id { AdvanceOtherSlot(s, c, ok, n, x); }
    }
  }

  lemma AdvanceOwnSlot(s: System, c: CallId, ok: bool, n: nat)
    requires Inv(s) && c in s.calls
    ensures var s' := AdvanceStep(s, c, ok, n); SlotOk(SlotOf(s', s.calls[c].id)) && SlotCounted(s', s.calls[c].id)
  {
    var Call(id, request, pc) := s.calls[c];
    var slot := SlotOf(s, id);
    var dest := DestOf(slot, request);
    var taken := dest.Some? && dest.value in s.targets;
    assert SlotOk(slot) && SlotCounted(s, id);
    SegmentKeeps(slot, request, pc, ok, n, taken);
    if slot.receipt.Some? { SegmentKeepsReceipt(slot, request, pc, ok, n, taken); }
    var m := Segment(slot, request, pc, ok, n, taken);
    if m.links { LinkPublishesTheChunks(slot, request, pc, ok, n, taken); }
    hide Segment, WorkOk, LinksAccounted;
    assert SlotOf(AdvanceStep(s, c, ok, n), id) == m.slot;
  }

  lemma AdvanceOtherSlot(s: System, c: CallId, ok: bool, n: nat, x: Id)
    requires SlotsOk(s) && c in s.calls && x != s.calls[c].id
    ensures var s' := AdvanceStep(s, c, ok, n); SlotOk(SlotOf(s', x)) && SlotCounted(s', x)
  {
    hide Segment, SlotOk;
    assert SlotOk(SlotOf(s, x)) && SlotCounted(s, x);
    assert SlotOf(AdvanceStep(s, c, ok, n), x) == SlotOf(s, x);
  }

  lemma AdvanceAccounted(s: System, c: CallId, ok: bool, n: nat)
    requires Inv(s) && c in s.calls
    ensures LinksAccounted(AdvanceStep(s, c, ok, n))
  {
    hide WorkOk, SlotOk;
    var Call(id, request, pc) := s.calls[c];
    var slot := SlotOf(s, id);
    var dest := DestOf(slot, request);
    var taken := dest.Some? && dest.value in s.targets;
    if Segment(slot, request, pc, ok, n, taken).links { LinkPublishesTheChunks(slot, request, pc, ok, n, taken); }
  }

  lemma AdvanceKeepsCalls(s: System, c: CallId, ok: bool, n: nat)
    requires Inv(s) && c in s.calls
    ensures CallsOk(AdvanceStep(s, c, ok, n))
  {
    var s' := AdvanceStep(s, c, ok, n);
    AdvanceOwnCall(s, c, ok, n);
    hide Segment, WorkOk;
    forall d | d in s'.calls ensures WorkOk(SlotOf(s', s'.calls[d].id), s'.calls[d].request, s'.calls[d].pc) {
      if d != c {
        assert s'.calls[d] == s.calls[d] && s.calls[d].id != s.calls[c].id;
        assert SlotOf(s', s.calls[d].id) == SlotOf(s, s.calls[d].id);
      }
    }
  }

  lemma AdvanceOwnCall(s: System, c: CallId, ok: bool, n: nat)
    requires Inv(s) && c in s.calls
    ensures var s' := AdvanceStep(s, c, ok, n);
            c in s'.calls ==> WorkOk(SlotOf(s', s'.calls[c].id), s'.calls[c].request, s'.calls[c].pc)
  {
    var Call(id, request, pc) := s.calls[c];
    var slot := SlotOf(s, id);
    var dest := DestOf(slot, request);
    var taken := dest.Some? && dest.value in s.targets;
    SegmentKeeps(slot, request, pc, ok, n, taken);
    hide Segment, WorkOk, SlotOk;
    assert SlotOf(AdvanceStep(s, c, ok, n), id) == Segment(slot, request, pc, ok, n, taken).slot;
  }

  lemma OutsideKeepsInv(s: System, e: Event)
    requires Inv(s) && (e.OthersCreate? || e.OthersRemove? || e.Crash?)
    ensures Inv(Step(s, e))
  {
    var s' := Step(s, e);
    forall x: Id ensures SlotOk(SlotOf(s', x)) && SlotCounted(s', x) {
      assert SlotOk(SlotOf(s, x)) && SlotCounted(s, x);
    }
    forall d | d in s'.calls ensures WorkOk(SlotOf(s', s'.calls[d].id), s'.calls[d].request, s'.calls[d].pc) {
      assert s'.calls[d] == s.calls[d];
    }
  }

  lemma EnterKeepsInv(s: System, e: Event)
    requires Inv(s) && e.Enter?
    ensures Inv(Step(s, e))
  {
    var s' := Step(s, e);
    forall x: Id ensures SlotOf(s', x) == SlotOf(s, x) {}
    forall x: Id ensures SlotCounted(s', x) { assert SlotCounted(s, x); }
  }

  lemma ExpireKeepsInv(s: System, e: Event)
    requires Inv(s) && e.Expire?
    ensures Inv(Step(s, e))
  {
    var s' := Step(s, e);
    if s' != s {
      assert SlotOk(SlotOf(s, e.id));
      forall x: Id | x != e.id ensures SlotOf(s', x) == SlotOf(s, x) {}
      forall x: Id ensures SlotCounted(s', x) { assert SlotCounted(s, x); }
      forall d | d in s'.calls && d != e.c ensures s.calls[d].id != e.id { assert s'.calls[d] == s.calls[d]; }
    }
  }

  lemma StepKeepsInv(s: System, e: Event)
    requires Inv(s)
    ensures Inv(Step(s, e))
  {
    match e
    case Advance(c, ok, n) =>
      AdvanceSingleFlight(s, c, ok, n);
      if c in s.calls {
        AdvanceCounts(s, c, ok, n);
        AdvanceKeepsCalls(s, c, ok, n);
      }
    case Enter(_, _, _, _) => EnterKeepsInv(s, e);
    case Expire(_, _) => ExpireKeepsInv(s, e);
    case _ => OutsideKeepsInv(s, e);
  }

  lemma {:induction false} RunKeepsInv(s: System, es: seq<Event>)
    requires Inv(s)
    ensures Inv(Run(s, es))
  {
    if es != [] {
      RunKeepsInv(s, es[..|es| - 1]);
      StepKeepsInv(Run(s, es[..|es| - 1]), es[|es| - 1]);
    }
  }

  // ---- theorems over all runs ------------------------------------------------------------------------

  lemma ReachableInv(es: seq<Event>)
    ensures Inv(Run(EMPTY, es))
  {
    RunKeepsInv(EMPTY, es);
  }

  /**
   In every reachable state the staged bytes below the offset are the accepted chunks in order, and
   every chunk was requested at the offset where the chunks before it end: none is stored twice.
  */
  lemma StagedBytesAreTheChunks(es: seq<Event>, id: Id)
    requires var slot := SlotOf(Run(EMPTY, es), id);
             slot.active.Some? && slot.active.value.saved.mode.Write? && slot.staging.Some?
    ensures var slot := SlotOf(Run(EMPTY, es), id); var entry := slot.active.value;
      && entry.saved.offset <= |slot.staging.value|
      && slot.staging.value[..entry.saved.offset] == Concat(entry.chunks)
      && |entry.starts| == |entry.chunks|
      && forall i :: 0 <= i < |entry.chunks| ==> entry.starts[i] == |Concat(entry.chunks[..i])|
  {
    ReachableInv(es);
    assert SlotOk(SlotOf(Run(EMPTY, es), id));
  }

  /** Whatever an id ever published has the size and, if declared, the checksum it was reserved with. */
  lemma PublicationsAsDeclared(es: seq<Event>, id: Id, i: nat)
    requires i < |SlotOf(Run(EMPTY, es), id).published|
    ensures var slot := SlotOf(Run(EMPTY, es), id);
      && slot.receipt.Some? && |slot.published[i]| == slot.receipt.value.size
      && (slot.receipt.value.declared.Some? ==> slot.receipt.value.declared.value == Sha(slot.published[i]))
  {
    ReachableInv(es);
    assert SlotOk(SlotOf(Run(EMPTY, es), id));
  }

  /**
   A receipt on disk that says completed is true, after any crash or restart: the transfer reached
   its full size, and a write was published with that digest.
  */
  lemma CompletedReceiptsAreTrue(es: seq<Event>, id: Id)
    requires var receipt := SlotOf(Run(EMPTY, es), id).receipt;
             receipt.Some? && receipt.value.state.Completed?
    ensures var slot := SlotOf(Run(EMPTY, es), id);
            && slot.receipt.value.offset == slot.receipt.value.size
            && (slot.receipt.value.mode.Write? ==>
                  slot.published != [] && slot.receipt.value.digest == Some(Sha(slot.published[0])))
  {
    ReachableInv(es);
    assert SlotOk(SlotOf(Run(EMPTY, es), id));
  }

  /** No step of this program changes or replaces a destination file that exists. */
  lemma NeverOverwrites(s: System, e: Event, name: Name)
    requires Inv(s) && name in s.targets && e != OthersRemove(name)
    ensures name in Step(s, e).targets && Step(s, e).targets[name] == s.targets[name]
  {
    if e.Advance? && e.c in s.calls {
      var Call(id, request, pc) := s.calls[e.c];
      var slot := SlotOf(s, id);
      var dest := DestOf(slot, request);
      assert SlotOk(slot);
      var taken := dest.Some? && dest.value in s.targets;
      if Segment(slot, request, pc, e.ok, e.n, taken).links {
        LinkPublishesTheChunks(slot, request, pc, e.ok, e.n, taken);
      }
    }
  }

  /**
   An id publishes at most once more than others removed files from its destination: without such
   a removal, at most once over all crashes, restarts and retries.
  */
  lemma PublishesAtMostOncePerRemoval(es: seq<Event>, id: Id)
    requires SlotOf(Run(EMPTY, es), id).published != []
    ensures var s := Run(EMPTY, es); var slot := SlotOf(s, id);
            slot.receipt.Some? && |slot.published| <= Count(s.removals, slot.receipt.value.dest) + 1
  {
    ReachableInv(es);
    var s := Run(EMPTY, es);
    assert SlotOk(SlotOf(s, id)) && SlotCounted(s, id);
    var name := SlotOf(s, id).receipt.value.dest;
    assert Count(s.links, name) <= Count(s.removals, name) + (if name in s.targets then 1 else 0);
  }

  /** Published and unstaged: the state after a finish whose unlink succeeded. */
  predicate Sealed(slot: Slot) {
    slot.published != [] && slot.staging.None?
  }

  lemma SegmentKeepsSealed(slot: Slot, request: Request, pc: Pc, ok: bool, n: nat, taken: bool)
    requires SlotOk(slot) && WorkOk(slot, request, pc) && Sealed(slot)
    ensures var m := Segment(slot, request, pc, ok, n, taken);
            Sealed(m.slot) && m.slot.published == slot.published && !m.links
  {
  }

  /** Once the staging file is gone, the id never publishes again, whatever others remove. */
  lemma {:induction false} SealedForever(s: System, es: seq<Event>, id: Id)
    requires Inv(s) && Sealed(SlotOf(s, id))
    ensures SlotOf(Run(s, es), id).published == SlotOf(s, id).published && Sealed(SlotOf(Run(s, es), id))
  {
    if es != [] {
      SealedForever(s, es[..|es| - 1], id);
      RunKeepsInv(s, es[..|es| - 1]);
      SealedStep(Run(s, es[..|es| - 1]), es[|es| - 1], id);
    }
  }

  lemma SealedStep(s: System, e: Event, id: Id)
    requires Inv(s) && Sealed(SlotOf(s, id))
    ensures SlotOf(Step(s, e), id).published == SlotOf(s, id).published && Sealed(SlotOf(Step(s, e), id))
  {
    if e.Advance? && e.c in s.calls && s.calls[e.c].id == id {
      var Call(_, request, pc) := s.calls[e.c];
      var dest := DestOf(SlotOf(s, id), request);
      assert SlotOk(SlotOf(s, id));
      SegmentKeepsSealed(SlotOf(s, id), request, pc, e.ok, e.n, dest.Some? && dest.value in s.targets);
    }
  }

  lemma ReadyLinks(slot: Slot, sha: Option<Digest>, ok: bool, taken: bool)
    requires SlotOk(slot) && slot.published != [] && ReadyToPublish(slot, sha) && slot.active.value.saved.mode.Write?
    ensures var m := FinishMove(slot, Finish(sha), Linking, ok, taken);
            m.slot.published == slot.published + (if ok && !taken then [slot.published[0]] else [])
  {
  }

  lemma RetryStep(s: System, c: CallId, id: Id, sha: Option<Digest>)
    requires c !in s.calls && id !in s.busy && SlotOf(s, id).active.Some?
    ensures Step(s, Enter(c, id, Finish(sha), true)) ==
            s.(busy := s.busy + {id}, calls := s.calls[c := Call(id, Finish(sha), FinishCheck)])
  {
  }

  lemma CheckStep(s: System, c: CallId, id: Id, sha: Option<Digest>)
    requires c in s.calls && s.calls[c] == Call(id, Finish(sha), FinishCheck)
    requires ReadyToPublish(SlotOf(s, id), sha) && SlotOf(s, id).active.value.saved.mode.Write?
    ensures var t := Step(s, Advance(c, true, 0));
            && SlotOf(t, id) == SlotOf(s, id) && t.targets == s.targets
            && c in t.calls && t.calls[c] == Call(id, Finish(sha), Linking)
  {
  }

  /**
   From every reachable state: an id that has published and whose finish is retried while its staging
   file is still there publishes the same bytes once more exactly if the link call succeeds and the
   destination is free again.
  */
  lemma RetriedFinishRepublishes(es: seq<Event>, c: CallId, id: Id, sha: Option<Digest>, ok: bool)
    requires var s := Run(EMPTY, es); var slot := SlotOf(s, id);
      && c !in s.calls && id !in s.busy && slot.published != []
      && ReadyToPublish(slot, sha) && slot.active.value.saved.mode.Write?
    ensures var s := Run(EMPTY, es); var slot := SlotOf(s, id);
            var t := Run(EMPTY, es + [Enter(c, id, Finish(sha), true), Advance(c, true, 0), Advance(c, ok, 0)]);
            var republishes := ok && slot.active.value.saved.dest !in s.targets;
            && SlotOf(t, id).published == slot.published + (if republishes then [slot.published[0]] else [])
            && (republishes ==> t.targets == s.targets[slot.active.value.saved.dest := slot.published[0]])
  {
    var s, more := Run(EMPTY, es), [Enter(c, id, Finish(sha), true), Advance(c, true, 0), Advance(c, ok, 0)];
    ReachableInv(es);
    assert SlotOk(SlotOf(s, id));
    RetryStep(s, c, id, sha);
    var a := Step(s, more[0]);
    CheckStep(a, c, id, sha);
    var b := Step(a, more[1]);
    RetryLinks(s, b, c, id, sha, ok);
    hide Step, ReadyToPublish, SlotOk, Inv;
    RunSplit(EMPTY, es + more, |es|);
    assert (es + more)[..|es|] == es && (es + more)[|es|..] == more;
    assert more[..2][..1] == more[..1] && more[..1][..0] == [];
    assert Run(s, more[..1]) == a && Run(s, more[..2]) == b;
  }

  lemma RetryLinks(s: System, b: System, c: CallId, id: Id, sha: Option<Digest>, ok: bool)
    requires SlotOk(SlotOf(s, id)) && SlotOf(s, id).published != [] && ReadyToPublish(SlotOf(s, id), sha)
    requires SlotOf(s, id).active.value.saved.mode.Write? && SlotOf(b, id) == SlotOf(s, id) && b.targets == s.targets
    requires c in b.calls && b.calls[c] == Call(id, Finish(sha), Linking)
    ensures var slot, t := SlotOf(s, id), Step(b, Advance(c, ok, 0));
            var republishes := ok && slot.active.value.saved.dest !in s.targets;
            && SlotOf(t, id).published == slot.published + (if republishes then [slot.published[0]] else [])
            && (republishes ==> t.targets == s.targets[slot.active.value.saved.dest := slot.published[0]])
  {
    ReadyLinks(SlotOf(s, id), sha, ok, SlotOf(s, id).active.value.saved.dest in s.targets);
  }

  /**
   And that does happen: the link succeeds, the unlink fails, somebody removes the published file,
   and the retried finish publishes the same id a second time.
  */
  lemma PublishesTwiceAfterRemoval(id: Id, name: Name)
    ensures var es := PublishTwice(id, name); SlotOf(Run(EMPTY, es), id).published == [[], []]
  {
    var es := PublishTwice(id, name);
    RunSplit(EMPTY, es, 5);
    var s := Run(EMPTY, es[..5]);
    BeginRun(id, name);
    assert es[..5] == BeginEvents(id, name);
    RunSplit(s, es[5..], 4);
    assert es[5..][..4] == FirstFinish(id);
    FirstFinishRun(s, id, name);
    var t := Run(s, FirstFinish(id));
    assert es[5..][4..] == SecondFinish(id, name);
    SecondFinishRun(t, id, name);
  }

  function BeginEvents(id: Id, name: Name): seq<Event> {
    [Enter(0, id, Begin(Write, name, 0, None), true),
     Advance(0, true, 0), Advance(0, true, 0), Advance(0, true, 0), Advance(0, true, 0)]
  }

  function FirstFinish(id: Id): seq<Event> {
    [Enter(0, id, Finish(Some(Sha([]))), true), Advance(0, true, 0), Advance(0, true, 0), Advance(0, false, 0)]
  }

  function SecondFinish(id: Id, name: Name): seq<Event> {
    [OthersRemove(name), Enter(0, id, Finish(Some(Sha([]))), true), Advance(0, true, 0), Advance(0, true, 0)]
  }

  function PublishTwice(id: Id, name: Name): seq<Event> {
    BeginEvents(id, name) + FirstFinish(id) + SecondFinish(id, name)
  }

  lemma {:induction false} RunSplit(s: System, es: seq<Event>, k: nat)
    requires k <= |es|
    ensures Run(s, es) == Run(Run(s, es[..k]), es[k..])
  {
    if k == |es| {
      assert es[..k] == es;
    } else {
      var before := es[..|es| - 1];
      RunSplit(s, before, k);
      assert before[..k] == es[..k] && es[k..][..|es[k..]| - 1] == before[k..];
    }
  }

  lemma RunFour(s: System, es: seq<Event>)
    requires |es| == 4
    ensures Run(s, es) == Step(Step(Step(Step(s, es[0]), es[1]), es[2]), es[3])
  {
    assert es[..3][..2] == es[..2] && es[..2][..1] == es[..1] && es[..1][..0] == [];
    assert Run(s, es[..1]) == Step(s, es[0]);
    assert Run(s, es[..2]) == Step(Step(s, es[0]), es[1]);
    assert Run(s, es[..3]) == Step(Step(Step(s, es[0]), es[1]), es[2]);
  }

  /** Transfer `id` alone: nothing in flight, or call 0 suspended at `pc`. */
  predicate At(s: System, id: Id, name: Name, slot: Slot, present: bool, request: Request, pc: Option<Pc>) {
    && SlotOf(s, id) == slot && (name in s.targets <==> present)
    && s.calls == (if pc.Some? then map[0 := Call(id, request, pc.value)] else map[])
    && s.busy == (if pc.Some? then {id} else {})
  }

  lemma AdvanceAt(s: System, id: Id, name: Name, slot: Slot, present: bool, request: Request, pc: Pc, ok: bool)
    requires At(s, id, name, slot, present, request, Some(pc)) && DestOf(slot, request) == Some(name)
    requires Segment(slot, request, pc, ok, 0, present).links ==> slot.staging.Some?
    ensures var m := Segment(slot, request, pc, ok, 0, present);
            At(Step(s, Advance(0, ok, 0)), id, name, m.slot, present || m.links, request, m.pc)
  {
  }

  const FIN := Finish(Some(Sha([])))

  function Open(name: Name, published: seq<Bytes>, staged: bool): Slot {
    var saved := Saved(Write, name, 0, None, Active, 0, None);
    Slot(Some(Entry(saved, [], [], [])), Some(saved), if staged then Some([]) else None, published)
  }

  lemma BeginRun(id: Id, name: Name)
    ensures At(Run(EMPTY, BeginEvents(id, name)), id, name, Open(name, [], true), false, FIN, None)
  {
    var es := BeginEvents(id, name);
    var begin := Begin(Write, name, 0, None);
    assert ActiveIds(EMPTY) == {};
    var s1 := Step(EMPTY, es[0]);
    assert At(s1, id, name, VACANT, false, begin, Some(BeginCheck));
    assert Run(EMPTY, es[..1]) == s1 by { assert es[..1] == [es[0]] && es[..1][..0] == []; }
    RunSplit(EMPTY, es, 1);
    RunFour(s1, es[1..]);
    var s2 := Step(s1, es[1]);
    AdvanceAt(s1, id, name, VACANT, false, begin, BeginCheck, true);
    var s3 := Step(s2, es[2]);
    AdvanceAt(s2, id, name, VACANT, false, begin, BeginReserve, true);
    var s4 := Step(s3, es[3]);
    var reserved := VACANT.(receipt := Some(Reserved(begin)));
    AdvanceAt(s3, id, name, reserved, false, begin, BeginOpen, true);
    AdvanceAt(s4, id, name, reserved.(staging := Some([])), false, begin, BeginRegister, true);
  }

  lemma EnterFinish(s: System, id: Id, name: Name, slot: Slot, present: bool)
    requires At(s, id, name, slot, present, FIN, None) && slot.active.Some?
    ensures At(Step(s, Enter(0, id, FIN, true)), id, name, slot, present, FIN, Some(FinishCheck))
  {
  }

  lemma FirstFinishRun(s: System, id: Id, name: Name)
    requires At(s, id, name, Open(name, [], true), false, FIN, None)
    ensures At(Run(s, FirstFinish(id)), id, name, Open(name, [[]], true), true, FIN, None)
  {
    var es := FirstFinish(id);
    RunFour(s, es);
    var open := Open(name, [], true);
    EnterFinish(s, id, name, open, false);
    var s1 := Step(s, es[0]);
    AdvanceAt(s1, id, name, open, false, FIN, FinishCheck, true);
    var s2 := Step(s1, es[1]);
    assert At(s2, id, name, open, false, FIN, Some(Linking));
    AdvanceAt(s2, id, name, open, false, FIN, Linking, true);
    var s3 := Step(s2, es[2]);
    assert At(s3, id, name, Open(name, [[]], true), true, FIN, Some(Unlinking));
    AdvanceAt(s3, id, name, Open(name, [[]], true), true, FIN, Unlinking, false);
  }

  lemma SecondFinishRun(s: System, id: Id, name: Name)
    requires At(s, id, name, Open(name, [[]], true), true, FIN, None)
    ensures SlotOf(Run(s, SecondFinish(id, name)), id).published == [[], []]
  {
    var es := SecondFinish(id, name);
    RunFour(s, es);
    var s1 := Step(s, es[0]);
    var s2 := Step(s1, es[1]);
    assert At(s2, id, name, Open(name, [[]], true), false, FIN, Some(FinishCheck));
    AdvanceAt(s2, id, name, Open(name, [[]], true), false, FIN, FinishCheck, true);
    var s3 := Step(s2, es[2]);
    AdvanceAt(s3, id, name, Open(name, [[]], true), false, FIN, Linking, true);
  }
}
