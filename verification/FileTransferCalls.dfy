/**
 What each call answers, from its first segment to its last, in terms of the receipt, the staged
 bytes and the offset alone: when a begin reserves, which chunks are taken, what a finish insists on
 and what an abort leaves behind.
*/
module FileTransferCalls {
  import opened Prelude
  import opened FileTransfers
  import opened FileTransferSafety

  /**
   Who gets in: a request enters exactly if its id is idle, its caller still has authority and, for a
   begin, active and busy ids counted together stay within four. A request for a transfer that is not
   active only inspects its receipt.
  */
  lemma EnterDecides(s: System, c: CallId, id: Id, request: Request, authorized: bool)
    requires c !in s.calls
    ensures var t := Step(s, Enter(c, id, request, authorized));
            var active := set x | x in s.slots && s.slots[x].active.Some?;
            var enters := id !in s.busy && authorized && (request.Begin? ==> |active| + |s.busy + {id}| <= 4);
            && t.slots == s.slots && t.targets == s.targets
            && t.busy == (if enters then s.busy + {id} else s.busy)
            && (c in t.calls <==> enters)
            && (enters ==> t.calls[c].id == id && t.calls[c].request == request)
            && (enters && !request.Begin? && id !in active ==> t.calls[c].pc == Inspect)
            && (forall taken, ok: bool, n: nat :: Segment(SlotOf(s, id), request, Inspect, ok, n, taken) == Return(SlotOf(s, id)))
  {
    assert ActiveIds(s) == set x | x in s.slots && s.slots[x].active.Some?;
  }

  /** Expiry leaves a busy or unknown id alone and otherwise begins to clean up after the transfer. */
  lemma ExpireDecides(s: System, c: CallId, id: Id)
    requires c !in s.calls
    ensures var t := Step(s, Expire(c, id));
            if id in s.busy || SlotOf(s, id).active.None? then t == s
            else
              && t.busy == s.busy + {id} && t.targets == s.targets
              && SlotOf(t, id) == SlotOf(s, id).(active := None)
              && t.calls == s.calls[c := Call(id, Abort, AbortCleanup(SlotOf(s, id).active.value.saved))]
  {
  }

  /** A call driven through its segments, with the fate of each await in turn, until it returns. */
  function Drive(slot: Slot, request: Request, pc: Pc, fates: seq<bool>, taken: bool): Move
    decreases |fates|
  {
    if fates == [] then Goto(slot, pc)
    else
      var m := Segment(slot, request, pc, fates[0], 0, taken);
      if m.pc.None? then m else Drive(m.slot, request, m.pc.value, fates[1..], taken)
  }

  lemma DriveOne(slot: Slot, request: Request, pc: Pc, fates: seq<bool>, taken: bool)
    requires fates != []
    ensures var m := Segment(slot, request, pc, fates[0], 0, taken);
            Drive(slot, request, pc, fates, taken) ==
            if m.pc.None? then m else Drive(m.slot, request, m.pc.value, fates[1..], taken)
  {
  }

  /**
   A begin: an id that has a receipt is never begun again, and otherwise the transfer becomes active,
   empty and at offset 0, exactly if nothing fails, a write finds its destination free and no staging
   file is in its way.
  */
  lemma BeginDecides(slot: Slot, mode: Mode, dest: Name, size: nat, declared: Option<Digest>, fates: seq<bool>, taken: bool)
    requires |fates| == 4 && slot.active.None?
    ensures var m := Drive(slot, Begin(mode, dest, size, declared), BeginCheck, fates, taken);
            var blank := Saved(mode, dest, size, declared, Active, 0, None);
            var passes := fates == [true, true, true, true] && (mode == Write ==> !taken && slot.staging.None?);
            && m.pc.None? && !m.links
            && (slot.receipt.Some? ==> m.slot == slot)
            && (slot.receipt.None? && passes ==>
                  m.slot == Slot(Some(Entry(blank, [], [], [])), Some(blank),
                                 if mode == Write then Some([]) else slot.staging, slot.published))
            && (slot.receipt.None? && !passes ==> m.slot.active.None?)
  {
    var request := Begin(mode, dest, size, declared);
    var blank := Reserved(request);
    DriveOne(slot, request, BeginCheck, fates, taken);
    if fates[0] && (mode.Write? ==> !taken) {
      DriveOne(slot, request, BeginReserve, fates[1..], taken);
      if fates[1] && slot.receipt.None? {
        var reserved := slot.(receipt := Some(blank));
        DriveOne(reserved, request, BeginOpen, fates[2..], taken);
        if fates[2] && (mode.Write? ==> slot.staging.None?) {
          DriveOne(if mode.Write? then reserved.(staging := Some([])) else reserved, request, BeginRegister, fates[3..], taken);
        }
      }
    }
  }

  /**
   The first segment of a chunk: a request at any other offset than the transfer's own returns and
   changes nothing. At the right offset a write goes on to store its bytes exactly if there is between
   one byte and 512 KiB of them and they fit the reserved size; a read advances by what it read.
  */
  lemma ChunkDecides(slot: Slot, offset: nat, bytes: Bytes, ok: bool, n: nat, taken: bool)
    requires slot.active.Some?
    ensures var m := Segment(slot, Chunk(offset, bytes), ChunkCheck, ok, n, taken);
            var saved := slot.active.value.saved;
            && !m.links
            && (offset != saved.offset ==> m.slot == slot && m.pc.None?)
            && (saved.mode == Write ==>
                  && m.slot == slot
                  && m.pc == if ok && offset == saved.offset && 0 < |bytes| <= 512 * 1024 && offset + |bytes| <= saved.size
                             then Some(Writing(0)) else None)
            && (saved.mode == Read ==>
                  && m.pc.None?
                  && m.slot == if ok && offset == saved.offset && 0 < n && offset + n <= saved.size
                               then slot.(active := Some(slot.active.value.(saved := saved.(offset := offset + n))))
                               else slot)
  {
  }

  /** What finish insists on: every byte went through, and a write has them staged under the right checksum. */
  predicate Finishable(slot: Slot, sha: Option<Digest>)
    requires slot.active.Some?
  {
    var entry := slot.active.value;
    && entry.saved.offset == entry.saved.size
    && (entry.saved.mode == Write ==>
          && slot.staging == Some(entry.hashed) && |entry.hashed| == entry.saved.size
          && (if entry.saved.declared.Some? then entry.saved.declared else sha) == Some(Sha(entry.hashed)))
  }

  /**
   A finish of a write: nothing happens unless every byte is staged under the checksum declared at
   begin, or else given now, the destination is free and linking works. Then the bytes are published;
   the transfer is over, with a completed receipt, if the staging file and the handle go too.
  */
  lemma FinishWriteDecides(slot: Slot, sha: Option<Digest>, fates: seq<bool>, taken: bool)
    requires |fates| == 5 && slot.active.Some? && slot.active.value.saved.mode == Write
    ensures var m := Drive(slot, Finish(sha), FinishCheck, fates, taken);
            var entry := slot.active.value;
            var published := slot.(published := slot.published + [entry.hashed]);
            && m.pc.None?
            && m.slot == if !fates[0] || !Finishable(slot, sha) || taken || !fates[1] then slot
                         else if !fates[2] then published
                         else if !fates[3] then published.(staging := None)
                         else Slot(None,
                                   if fates[4] then Some(entry.saved.(state := Completed, digest := Some(Sha(entry.hashed))))
                                   else slot.receipt,
                                   None, published.published)
  {
    var request := Finish(sha);
    DriveOne(slot, request, FinishCheck, fates, taken);
    if fates[0] && Finishable(slot, sha) {
      DriveOne(slot, request, Linking, fates[1..], taken);
      if fates[1] && !taken {
        var published := slot.(published := slot.published + [slot.staging.value]);
        DriveOne(published, request, Unlinking, fates[2..], taken);
        if fates[2] {
          var gone := published.(staging := None);
          var saved := slot.active.value.saved.(state := Completed, digest := Some(Sha(slot.active.value.hashed)));
          DriveOne(gone, request, Closing, fates[3..], taken);
          if fates[3] { DriveOne(gone.(active := None), request, Saving(saved), fates[4..], taken); }
        }
      }
    }
  }

  /** A finish of a read publishes nothing and completes exactly at full size. */
  lemma FinishReadDecides(slot: Slot, sha: Option<Digest>, fates: seq<bool>, taken: bool)
    requires |fates| == 3 && slot.active.Some? && slot.active.value.saved.mode == Read
    ensures var m := Drive(slot, Finish(sha), FinishCheck, fates, taken);
            var entry := slot.active.value;
            && m.pc.None?
            && m.slot == if !fates[0] || entry.saved.offset != entry.saved.size || !fates[1] then slot
                         else slot.(active := None,
                                    receipt := if fates[2] then Some(entry.saved.(state := Completed, digest := Some(Sha(entry.hashed))))
                                               else slot.receipt)
  {
    var request := Finish(sha);
    DriveOne(slot, request, FinishCheck, fates, taken);
    if fates[0] && Finishable(slot, sha) {
      DriveOne(slot, request, Closing, fates[1..], taken);
      var saved := slot.active.value.saved.(state := Completed, digest := Some(Sha(slot.active.value.hashed)));
      if fates[1] { DriveOne(slot.(active := None), request, Saving(saved), fates[2..], taken); }
    }
  }

  /**
   An abort ends the transfer whatever happens to the staging file; the receipt says aborted exactly
   if the file is gone, and unknown otherwise.
  */
  lemma AbortDecides(slot: Slot, fates: seq<bool>, taken: bool)
    requires |fates| == 3 && slot.active.Some?
    ensures var m := Drive(slot, Abort, AbortStart, fates, taken);
            var ended := slot.active.value.saved.(state := if fates[1] then Aborted else OutcomeUnknown);
            && m.pc.None? && !m.links
            && m.slot == if !fates[0] then slot
                         else Slot(None, if fates[2] then Some(ended) else slot.receipt,
                                   if fates[1] then None else slot.staging, slot.published)
  {
    DriveOne(slot, Abort, AbortStart, fates, taken);
    if fates[0] {
      var saved := slot.active.value.saved;
      var off := slot.(active := None);
      DriveOne(off, Abort, AbortCleanup(saved), fates[1..], taken);
      DriveOne(if fates[1] then off.(staging := None) else off, Abort,
               Saving(saved.(state := if fates[1] then Aborted else OutcomeUnknown)), fates[2..], taken);
    }
  }

  // ---- a resent chunk, over whole runs ---------------------------------------------------------------

  /** The two events of a chunk request that the fence turns away. */
  function Refused(c: CallId, id: Id, offset: nat, bytes: Bytes, n: nat): seq<Event> {
    [Enter(c, id, Chunk(offset, bytes), true), Advance(c, true, n)]
  }

  /** A chunk stored by one write. */
  function Stored(c: CallId, id: Id, offset: nat, bytes: Bytes): seq<Event> {
    [Enter(c, id, Chunk(offset, bytes), true), Advance(c, true, 0), Advance(c, true, |bytes|)]
  }

  lemma EnterChunk(s: System, c: CallId, id: Id, offset: nat, bytes: Bytes)
    requires c !in s.calls && id !in s.busy && SlotOf(s, id).active.Some?
    ensures Step(s, Enter(c, id, Chunk(offset, bytes), true)) ==
            s.(busy := s.busy + {id}, calls := s.calls[c := Call(id, Chunk(offset, bytes), ChunkCheck)])
  {
  }

  lemma RunTwo(s: System, es: seq<Event>)
    requires |es| == 2
    ensures Run(s, es) == Step(Step(s, es[0]), es[1])
  {
    assert es[..1][..0] == [];
    assert Run(s, es[..1]) == Step(s, es[0]);
  }

  lemma WrongOffsetRefused(s: System, c: CallId, id: Id, offset: nat, bytes: Bytes, n: nat)
    requires c !in s.calls && id !in s.busy && SlotOf(s, id).active.Some?
    requires offset != SlotOf(s, id).active.value.saved.offset
    ensures Run(s, Refused(c, id, offset, bytes, n)) == s
  {
    var es := Refused(c, id, offset, bytes, n);
    RunTwo(s, es);
    EnterChunk(s, c, id, offset, bytes);
    var a := Step(s, es[0]);
    ChunkDecides(SlotOf(s, id), offset, bytes, true, n, SlotOf(s, id).active.value.saved.dest in s.targets);
    var t := Step(a, es[1]);
    assert a.calls - {c} == s.calls && a.busy - {id} == s.busy;
    assert a.slots[id := a.slots[id]] == a.slots;
  }

  /**
   Chunks are never blindly replayed: from every reachable state a chunk at the transfer's offset is
   stored once, at that offset, and sending it again leaves the whole system as it is.
  */
  lemma ResentChunkChangesNothing(es: seq<Event>, c: CallId, d: CallId, id: Id, offset: nat, bytes: Bytes, n: nat)
    requires var s := Run(EMPTY, es); var slot := SlotOf(s, id);
      && c !in s.calls && d !in s.calls && id !in s.busy
      && slot.active.Some? && slot.active.value.saved.mode == Write && slot.staging.Some?
      && offset == slot.active.value.saved.offset
      && 0 < |bytes| <= 512 * 1024 && offset + |bytes| <= slot.active.value.saved.size
    ensures var s := Run(EMPTY, es); var entry := SlotOf(s, id).active.value;
            var t := Run(EMPTY, es + Stored(c, id, offset, bytes));
            && SlotOf(t, id).active == Some(Entry(entry.saved.(offset := offset + |bytes|), entry.chunks + [bytes],
                                                  entry.hashed + bytes, entry.starts + [offset]))
            && SlotOf(t, id).staging.Some? && |SlotOf(t, id).staging.value| >= offset + |bytes|
            && SlotOf(t, id).staging.value[..offset + |bytes|] == Concat(entry.chunks) + bytes
            && Run(EMPTY, es + Stored(c, id, offset, bytes) + Refused(d, id, offset, bytes, n)) == t
  {
    var s, stored, refused := Run(EMPTY, es), Stored(c, id, offset, bytes), Refused(d, id, offset, bytes, n);
    ReachableInv(es);
    RunSplit(EMPTY, es + stored, |es|);
    assert (es + stored)[..|es|] == es && (es + stored)[|es|..] == stored;
    assert SlotOk(SlotOf(s, id));
    StoresOnce(s, c, id, offset, bytes);
    var t := Run(s, stored);
    RunSplit(EMPTY, es + stored + refused, |es + stored|);
    assert (es + stored + refused)[..|es + stored|] == es + stored && (es + stored + refused)[|es + stored|..] == refused;
    WrongOffsetRefused(t, d, id, offset, bytes, n);
  }

  /** The only write of a chunk that the file takes at once. */
  lemma WritesWhole(slot: Slot, offset: nat, bytes: Bytes, taken: bool)
    requires SlotOk(slot) && slot.active.Some? && slot.active.value.saved.mode == Write && slot.staging.Some?
    requires offset == slot.active.value.saved.offset && 0 < |bytes|
    ensures var entry := slot.active.value;
            var m := Segment(slot, Chunk(offset, bytes), Writing(0), true, |bytes|, taken);
            && m.pc.None? && !m.links
            && m.slot.active == Some(Entry(entry.saved.(offset := offset + |bytes|), entry.chunks + [bytes],
                                           entry.hashed + bytes, entry.starts + [offset]))
            && m.slot.staging.Some? && |m.slot.staging.value| >= offset + |bytes|
            && m.slot.staging.value[..offset + |bytes|] == Concat(entry.chunks) + bytes
  {
    WriteAtExtends(slot.staging.value, offset, bytes, offset);
    assert bytes[0..|bytes|] == bytes;
    var file := WriteAt(slot.staging.value, offset, bytes);
    assert file[..offset + |bytes|] == file[..offset] + file[offset..offset + |bytes|];
  }

  /** One segment of the only call of `id`, seen from the system. */
  lemma AdvanceAlone(s: System, c: CallId, n: nat, m: Move)
    requires c in s.calls && SlotOf(s, s.calls[c].id).active.Some? && !m.links
    requires var slot := SlotOf(s, s.calls[c].id);
             m == Segment(slot, s.calls[c].request, s.calls[c].pc, true, n, slot.active.value.saved.dest in s.targets)
    requires !s.calls[c].request.Begin?
    ensures var t := Step(s, Advance(c, true, n)); var id := s.calls[c].id;
            && SlotOf(t, id) == m.slot
            && t.calls == (if m.pc.Some? then s.calls[c := Call(id, s.calls[c].request, m.pc.value)] else s.calls - {c})
            && t.busy == (if m.pc.Some? then s.busy else s.busy - {id})
            && t.targets == s.targets
  {
    hide Segment;
  }

  /** A chunk that fits is let in and goes on to write. */
  lemma ChunkEnters(s: System, c: CallId, id: Id, offset: nat, bytes: Bytes)
    requires c !in s.calls && id !in s.busy
    requires var slot := SlotOf(s, id);
      && slot.active.Some? && slot.active.value.saved.mode == Write && offset == slot.active.value.saved.offset
      && 0 < |bytes| <= 512 * 1024 && offset + |bytes| <= slot.active.value.saved.size
    ensures var b := Run(s, Refused(c, id, offset, bytes, 0));
            && SlotOf(b, id) == SlotOf(s, id) && b.busy == s.busy + {id} && b.targets == s.targets
            && b.calls == s.calls[c := Call(id, Chunk(offset, bytes), Writing(0))]
  {
    var es, slot := Refused(c, id, offset, bytes, 0), SlotOf(s, id);
    RunTwo(s, es);
    EnterChunk(s, c, id, offset, bytes);
    var a := Step(s, es[0]);
    ChunkDecides(slot, offset, bytes, true, 0, slot.active.value.saved.dest in s.targets);
    hide Segment, Step;
    AdvanceAlone(a, c, 0, Goto(slot, Writing(0)));
  }

  lemma StoresOnce(s: System, c: CallId, id: Id, offset: nat, bytes: Bytes)
    requires SlotOk(SlotOf(s, id)) && c !in s.calls && id !in s.busy
    requires var slot := SlotOf(s, id);
      && slot.active.Some? && slot.active.value.saved.mode == Write && slot.staging.Some?
      && offset == slot.active.value.saved.offset
      && 0 < |bytes| <= 512 * 1024 && offset + |bytes| <= slot.active.value.saved.size
    ensures var entry := SlotOf(s, id).active.value; var t := Run(s, Stored(c, id, offset, bytes));
            && t.calls == s.calls && t.busy == s.busy
            && SlotOf(t, id).active == Some(Entry(entry.saved.(offset := offset + |bytes|), entry.chunks + [bytes],
                                                  entry.hashed + bytes, entry.starts + [offset]))
            && SlotOf(t, id).staging.Some? && |SlotOf(t, id).staging.value| >= offset + |bytes|
            && SlotOf(t, id).staging.value[..offset + |bytes|] == Concat(entry.chunks) + bytes
  {
    var es := Stored(c, id, offset, bytes);
    var slot := SlotOf(s, id);
    var b := Run(s, es[..2]);
    ChunkEnters(s, c, id, offset, bytes);
    assert es[..2] == Refused(c, id, offset, bytes, 0);
    WritesWhole(slot, offset, bytes, slot.active.value.saved.dest in b.targets);
    hide Segment, SlotOk, Step;
    AdvanceAlone(b, c, |bytes|, Segment(slot, Chunk(offset, bytes), Writing(0), true, |bytes|, slot.active.value.saved.dest in b.targets));
    assert b.calls - {c} == s.calls && b.busy - {id} == s.busy;
  }
}
