/**
 The target object itself: its two in-memory tables, the synchronous guards around every
 operation, and the write loop that stores one chunk through writes of any size.
*/
module FileTransferTarget {
  import opened Prelude
  import opened FileTransfers
  import opened FileTransferSafety

  class FileTransferTarget {
    var active: map<Id, Entry>
    var busy: set<Id>
    var staging: map<Id, Bytes>

    ghost predicate Valid()
      reads this
    {
      forall id :: id in active && active[id].saved.mode.Write? ==>
        && EntryOk(active[id]) && id in staging
        && active[id].saved.offset <= |staging[id]|
        && staging[id][..active[id].saved.offset] == active[id].hashed
    }

    constructor ()
      ensures Valid() && active == map[] && busy == {} && staging == map[]
    {
      active, busy, staging := map[], {}, map[];
    }

    /** The head of `execute`: refuse a busy id, a revoked caller, a begin beyond capacity. */
    method TryEnter(id: Id, begin: bool, authorized: bool) returns (entered: bool)
      modifies this`busy
      ensures entered <==>
                id !in old(busy) && authorized && (begin ==> |active.Keys| + |old(busy) + {id}| <= CAPACITY)
      ensures busy == if entered then old(busy) + {id} else old(busy)
    {
      if id in busy || !authorized { return false; }
      busy := busy + {id};
      if begin && |active.Keys| + |busy| > CAPACITY {
        busy := busy - {id};
        return false;
      }
      entered := true;
    }

    /** The head of `expire`: a busy id is left alone, an idle transfer stops being active. */
    method TryExpire(id: Id) returns (entry: Option<Entry>)
      requires Valid()
      modifies this`busy, this`active
      ensures Valid()
      ensures entry.Some? <==> id !in old(busy) && id in old(active)
      ensures entry.Some? ==>
                entry.value == old(active)[id] && busy == old(busy) + {id} && active == old(active) - {id}
      ensures entry.None? ==> busy == old(busy) && active == old(active)
    {
      if id in busy || id !in active { return None; }
      entry := Some(active[id]);
      busy, active := busy + {id}, active - {id};
    }

    /**
     Stores one accepted chunk at the offset. Every write may store fewer bytes than asked, none, or
     fail; only a complete chunk moves the offset and the running hash.
    */
    method StoreChunk(id: Id, bytes: Bytes) returns (ok: bool)
      requires Valid() && id in active && active[id].saved.mode.Write?
      requires 0 < |bytes| <= 512 * 1024 && active[id].saved.offset + |bytes| <= active[id].saved.size
      modifies this`active, this`staging
      ensures Valid()
      ensures ok ==>
                && active == old(active)[id := Entry(
                     old(active)[id].saved.(offset := old(active)[id].saved.offset + |bytes|),
                     old(active)[id].chunks + [bytes], old(active)[id].hashed + bytes,
                     old(active)[id].starts + [old(active)[id].saved.offset])]
                && staging == old(staging)[id := WriteAt(old(staging)[id], old(active)[id].saved.offset, bytes)]
      ensures !ok ==> active == old(active)
      ensures forall x :: x != id ==> (x in staging <==> x in old(staging)) && (x in staging ==> staging[x] == old(staging)[x])
    {
      var entry := active[id];
      var offset := entry.saved.offset;
      ghost var before := staging[id];
      var written: nat := 0;
      assert WriteAt(before, offset, bytes[..0]) == before;
      while written < |bytes|
        invariant written <= |bytes|
        invariant active == old(active)
        invariant staging == old(staging)[id := WriteAt(before, offset, bytes[..written])]
      {
        var n: int := *;
        var failed: bool := *;
        if n <= 0 || written + n > |bytes| || failed {
          WriteKeepsPrefix(before, offset, bytes[..written]);
          return false;
        }
        WriteInPieces(before, offset, bytes, written, n);
        staging := staging[id := WriteAt(staging[id], offset + written, bytes[written..written + n])];
        written := written + n;
      }
      assert bytes[..written] == bytes;
      WriteKeepsPrefix(before, offset, bytes);
      ChunkAbsorbed(entry, bytes);
      active := active[id := Entry(entry.saved.(offset := offset + |bytes|), entry.chunks + [bytes],
                                   entry.hashed + bytes, entry.starts + [offset])];
      ok := true;
    }
  }

  /** Writing a chunk piece after piece is writing it at once. */
  lemma WriteInPieces(file: Bytes, at: nat, bytes: Bytes, written: nat, n: nat)
    requires at <= |file| && written + n <= |bytes|
    ensures at + written <= |WriteAt(file, at, bytes[..written])|
    ensures WriteAt(WriteAt(file, at, bytes[..written]), at + written, bytes[written..written + n])
            == WriteAt(file, at, bytes[..written + n])
  {
    assert bytes[..written + n] == bytes[..written] + bytes[written..written + n];
  }

  lemma WriteKeepsPrefix(file: Bytes, at: nat, bytes: Bytes)
    requires at <= |file|
    ensures var r := WriteAt(file, at, bytes);
            |r| >= at + |bytes| && r[..at] == file[..at] && r[..at + |bytes|] == file[..at] + bytes
  {
  }
}
