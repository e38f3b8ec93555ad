/**
 The worker's bounded per-session event buffer, against the whole stream ever appended. The buffer keeps
 the newest events under their sequence numbers; asking for what is newer than a cursor gives a gap
 marker if events the cursor needs have been trimmed, and then the retained newer ones, in order.
 Forgetting a session ends its stream and no other.
*/
module WseqBuffer {
  import opened Prelude

  /** The payload fields the worker reads back, and the rest. */
  datatype Payload = Payload(vendorSessionId: Option<string>, message: Option<string>, rest: string)
  datatype Event = Event(kind: string, payload: Payload)
  datatype Buffered = Buffered(wseq: nat, kind: string, payload: Payload)

  const ATTACH_GAP_KIND := "worker/attach-gap"

  /** A session's stream, stamped from 1. */
  function Stamped(stream: seq<Event>): (r: seq<Buffered>)
    ensures |r| == |stream|
    ensures forall i :: 0 <= i < |r| ==> r[i] == Buffered(i + 1, stream[i].kind, stream[i].payload)
  {
    seq(|stream|, i requires 0 <= i < |stream| => Buffered(i + 1, stream[i].kind, stream[i].payload))
  }

  /** How many events were trimmed. */
  function Dropped(stream: seq<Event>, max: nat): nat {
    if |stream| <= max then 0 else |stream| - max
  }

  function Cursor(afterWseq: real): nat {
    if afterWseq < 0.0 then 0 else afterWseq.Floor
  }

  function Gap(droppedThrough: nat): Buffered {
    Buffered(droppedThrough, ATTACH_GAP_KIND, Payload(None, None, "droppedThrough"))
  }

  /** What a replay past the cursor owes: a gap marker if events it needs are gone, then the retained newer ones. */
  function Owed(stream: seq<Event>, cursor: nat, max: nat): seq<Buffered> {
    var dropped := Dropped(stream, max);
    var from := if cursor < dropped then dropped else cursor;
    (if cursor < dropped then [Gap(dropped)] else [])
    + if from <= |stream| then Stamped(stream)[from..] else []
  }

  /**
   `out` is what a hub that has everything up to `afterWseq` still needs, of all events ever stamped:
   those of the newest `max` that are newer, in order, behind a gap marker exactly if one that is no
   longer among the newest `max` is newer too.
  */
  ghost predicate IsNewer(out: seq<Buffered>, all: seq<Buffered>, afterWseq: real, max: nat) {
    var trimmed := if |all| <= max then 0 else |all| - max;
    var gap := exists i :: 0 <= i < trimmed && all[i].wseq as real > afterWseq;
    var marker := Buffered(trimmed, "worker/attach-gap", Payload(None, None, "droppedThrough"));
    exists k :: trimmed <= k <= |all|
      && out == (if gap then [marker] else []) + all[k..]
      && (forall i :: trimmed <= i < k ==> all[i].wseq as real <= afterWseq)
      && (forall i :: k <= i < |all| ==> all[i].wseq as real > afterWseq)
  }

  datatype Session = Session(events: seq<Buffered>, last: nat)

  /** The buffer of one session: the end of its stream, and its length. */
  ghost predicate Retains(session: Session, stream: seq<Event>, max: nat) {
    && stream != [] && session.last == |stream|
    && session.events == Stamped(stream)[Dropped(stream, max)..]
  }

  function Newer(events: seq<Buffered>, cursor: nat): seq<Buffered> {
    if events == [] then []
    else
      var n := |events| - 1;
      Newer(events[..n], cursor) + if events[n].wseq > cursor then [events[n]] else []
  }

  predicate Numbered(r: seq<Buffered>) {
    forall i :: 0 <= i < |r| ==> r[i].wseq == i + 1
  }

  lemma NewerSnoc(events: seq<Buffered>, e: Buffered, cursor: nat)
    ensures Newer(events + [e], cursor) == Newer(events, cursor) + if e.wseq > cursor then [e] else []
  {
    assert (events + [e])[..|events|] == events;
  }

  lemma NewerEmpty(cursor: nat)
    ensures Newer([], cursor) == []
  {
  }

  lemma {:induction false} NewerNone(events: seq<Buffered>, cursor: nat)
    requires forall i :: 0 <= i < |events| ==> events[i].wseq <= cursor
    ensures Newer(events, cursor) == []
  {
    hide Newer;
    if events == [] {
      NewerEmpty(cursor);
    } else {
      var n := |events| - 1;
      NewerNone(events[..n], cursor);
      NewerSnoc(events[..n], events[n], cursor);
      FrontLast(events);
    }
  }

  lemma {:induction false} NewerAll(events: seq<Buffered>, cursor: nat)
    requires forall i :: 0 <= i < |events| ==> events[i].wseq > cursor
    ensures Newer(events, cursor) == events
  {
    hide Newer;
    if events == [] {
      NewerEmpty(cursor);
    } else {
      var n := |events| - 1;
      NewerAll(events[..n], cursor);
      NewerSnoc(events[..n], events[n], cursor);
      FrontLast(events);
    }
  }

  lemma FrontLast<T>(s: seq<T>)
    requires s != []
    ensures s[..|s| - 1] + [s[|s| - 1]] == s
  {
  }

  lemma {:induction false} NewerConcat(a: seq<Buffered>, b: seq<Buffered>, cursor: nat)
    ensures Newer(a + b, cursor) == Newer(a, cursor) + Newer(b, cursor)
  {
    hide Newer;
    if b == [] {
      NewerEmpty(cursor);
      assert a + b == a;
    } else {
      var n := |b| - 1;
      var last := if b[n].wseq > cursor then [b[n]] else [];
      NewerConcat(a, b[..n], cursor);
      NewerSnoc(a + b[..n], b[n], cursor);
      NewerSnoc(b[..n], b[n], cursor);
      FrontLast(b);
      Assoc(a, b[..n], [b[n]]);
      Assoc(Newer(a, cursor), Newer(b[..n], cursor), last);
    }
  }

  lemma NewerNumbered(r: seq<Buffered>, lo: nat, cursor: nat)
    requires Numbered(r) && lo <= |r|
    ensures Newer(r[lo..], cursor) == if cursor >= |r| then [] else r[if cursor < lo then lo else cursor..]
  {
    hide Newer;
    var mid := if cursor < lo then lo else if cursor < |r| then cursor else |r|;
    NewerNone(r[lo..mid], cursor);
    NewerAll(r[mid..], cursor);
    NewerConcat(r[lo..mid], r[mid..], cursor);
    assert r[lo..mid] + r[mid..] == r[lo..];
    assert [] + r[mid..] == r[mid..];
  }

  /** Appending to a retained stream and trimming to the bound retains the longer stream. */
  lemma AppendRetains(session: Session, stream: seq<Event>, e: Event, max: nat) returns (events: seq<Buffered>)
    requires max >= 1 && (stream != [] ==> Retains(session, stream, max)) && (stream == [] ==> session == Session([], 0))
    ensures session.last == |stream|
    ensures events == session.events + [Buffered(|stream| + 1, e.kind, e.payload)]
    ensures Retains(Session(if |events| > max then events[|events| - max..] else events, |stream| + 1), stream + [e], max)
  {
    events := session.events + [Buffered(|stream| + 1, e.kind, e.payload)];
    assert stream == [] ==> Stamped(stream)[Dropped(stream, max)..] == [];
    StampMore(stream, e, max);
  }

  /** The loop of since over the retained events. */
  method CollectNewer(events: seq<Buffered>, cursor: nat) returns (out: seq<Buffered>)
    ensures out == Newer(events, cursor)
  {
    NewerEmpty(cursor);
    hide Newer;
    out := [];
    var i := 0;
    while i < |events|
      invariant 0 <= i <= |events|
      invariant out == Newer(events[..i], cursor)
    {
      NewerSnoc(events[..i], events[i], cursor);
      assert events[..i + 1] == events[..i] + [events[i]];
      if events[i].wseq > cursor {
        out := out + [events[i]];
      }
      i := i + 1;
    }
    assert events[..|events|] == events;
  }

  class WseqBuffer {
    var sessions: map<string, Session>
    const max: nat
    /** Everything appended to each live session. */
    ghost var streams: map<string, seq<Event>>

    ghost predicate Valid()
      reads this
    {
      && max >= 1 && sessions.Keys == streams.Keys
      && forall sid :: sid in streams ==> Retains(sessions[sid], streams[sid], max)
    }

    ghost function Stream(sid: string): seq<Event>
      reads this
    {
      if sid in streams then streams[sid] else []
    }

    constructor (maxPerSession: nat)
      requires maxPerSession >= 1
      ensures Valid() && streams == map[] && max == maxPerSession
    {
      sessions, streams, max := map[], map[], maxPerSession;
    }

    method Append(sid: string, event: Event) returns (wseq: nat)
      requires Valid()
      modifies this
      ensures Valid()
      ensures streams == old(streams)[sid := old(Stream(sid)) + [event]]
      ensures wseq == |old(Stream(sid))| + 1
    {
      var buf := if sid in sessions then sessions[sid] else Session([], 0);
      ghost var s := Stream(sid);
      ghost var appended := AppendRetains(buf, s, event, max);
      hide Stamped, Dropped;
      wseq := buf.last + 1;
      var events := buf.events + [Buffered(wseq, event.kind, event.payload)];
      if |events| > max {
        events := events[|events| - max..];
      }
      sessions := sessions[sid := Session(events, wseq)];
      streams := streams[sid := s + [event]];
    }

    method Since(sid: string, afterWseq: real) returns (out: seq<Buffered>)
      requires Valid()
      ensures out == Owed(Stream(sid), Cursor(afterWseq), max)
      ensures IsNewer(out, Stamped(Stream(sid)), afterWseq, max)
    {
      OwedMeans(Stream(sid), afterWseq, max);
      hide IsNewer;
      if sid !in sessions || |sessions[sid].events| == 0 { return []; }
      var events := sessions[sid].events;
      var cursor := Cursor(afterWseq);
      RetainedOwed(streams[sid], cursor, max);
      hide Newer, Owed, Stamped;
      var oldestRetained := events[0].wseq;
      out := [];
      if cursor + 1 < oldestRetained {
        out := [Gap(oldestRetained - 1)];
      }
      var newer := CollectNewer(events, cursor);
      out := out + newer;
    }

    method LastWseq(sid: string) returns (last: nat)
      requires Valid()
      ensures last == |Stream(sid)|
    {
      last := if sid in sessions then sessions[sid].last else 0;
    }

    method Forget(sid: string)
      requires Valid()
      modifies this
      ensures Valid() && streams == old(streams) - {sid}
    {
      sessions := sessions - {sid};
      streams := streams - {sid};
    }
  }

  lemma StampMore(s: seq<Event>, e: Event, max: nat)
    requires max >= 1
    ensures var r := Stamped(s)[Dropped(s, max)..] + [Buffered(|s| + 1, e.kind, e.payload)];
            |r| <= max + 1
            && (if |r| > max then r[|r| - max..] else r) == Stamped(s + [e])[Dropped(s + [e], max)..]
  {
    assert Stamped(s + [e]) == Stamped(s) + [Buffered(|s| + 1, e.kind, e.payload)];
  }

  lemma RetainedOwed(s: seq<Event>, cursor: nat, max: nat)
    requires s != [] && max >= 1
    ensures var events, dropped := Stamped(s)[Dropped(s, max)..], Dropped(s, max);
            && events != [] && events[0].wseq == dropped + 1
            && Owed(s, cursor, max) == (if cursor < dropped then [Gap(dropped)] else []) + Newer(events, cursor)
  {
    NewerNumbered(Stamped(s), Dropped(s, max), cursor);
  }

  // ---- what is owed -----------------------------------------------------------------------------------

  /**
   What is owed to a cursor as the hub sends it: a gap marker exactly if some trimmed event is newer
   than the cursor, and then exactly the retained events that are newer, in order.
  */
  lemma OwedMeans(stream: seq<Event>, afterWseq: real, max: nat)
    ensures IsNewer(Owed(stream, Cursor(afterWseq), max), Stamped(stream), afterWseq, max)
  {
    var all, cursor, trimmed := Stamped(stream), Cursor(afterWseq), Dropped(stream, max);
    forall i | 0 <= i < |all| ensures all[i].wseq as real > afterWseq <==> i >= cursor { FloorNewer(i, afterWseq); }
    if cursor < trimmed { assert all[trimmed - 1].wseq as real > afterWseq; }
    var from := if cursor < trimmed then trimmed else cursor;
    var k := if from <= |all| then from else |all|;
    assert all[|all|..] == [];
    assert Owed(stream, cursor, max) == (if cursor < trimmed then [Gap(trimmed)] else []) + all[k..];
  }

  /** Event i + 1 lies past the floor of a cursor exactly if it lies past the cursor. */
  lemma FloorNewer(i: nat, afterWseq: real)
    ensures (i + 1) as real > afterWseq <==> i >= Cursor(afterWseq)
  {
    if afterWseq >= 0.0 {
      var f := afterWseq.Floor;
      assert f as real <= afterWseq < f as real + 1.0;
      if i >= f { assert (i + 1) as real >= (f + 1) as real; } else { assert (i + 1) as real <= f as real; }
    }
  }

  /** Sequence numbers strictly increase, gap marker included, and all lie past the cursor. */
  lemma OwedIncreasing(stream: seq<Event>, cursor: nat, max: nat)
    requires max >= 1
    ensures var r := Owed(stream, cursor, max);
            && (forall i, j :: 0 <= i < j < |r| ==> r[i].wseq < r[j].wseq)
            && (forall i :: 0 <= i < |r| ==> r[i].wseq > cursor)
  {
  }

  /** Nothing newer than the cursor is missing unless a gap marker stands for it. */
  lemma OwedComplete(stream: seq<Event>, cursor: nat, max: nat, w: nat)
    requires max >= 1 && cursor < w <= |stream|
    ensures var r := Owed(stream, cursor, max);
            if w <= Dropped(stream, max) then r != [] && r[0] == Gap(Dropped(stream, max))
            else Buffered(w, stream[w - 1].kind, stream[w - 1].payload) in r
  {
    var dropped := Dropped(stream, max);
    var from := if cursor < dropped then dropped else cursor;
    if w > dropped {
      assert Stamped(stream)[from..][w - 1 - from] == Stamped(stream)[w - 1];
    }
  }
}
