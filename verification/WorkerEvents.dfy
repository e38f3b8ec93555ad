/**
 The agent worker's outbound stream: every vendor event and turn marker gets the session's next wseq,
 is buffered and sent; attach replays the buffer past the hub's cursor, then live emission continues.
 What a session receives on one connection is compared with its stream past the cursor, and the
 sessions in a turn with the lifecycle messages sent.
*/
module WorkerEvents {
  import opened Prelude
  import opened WseqBuffer

  const WSEQ_TURN_STARTED := "worker/turn/started"
  const WSEQ_TURN_COMPLETED := "worker/turn/completed"
  const WSEQ_TURN_ERROR := "worker/turn/error"

  /** What a driver produces. */
  datatype Emission =
    | Vendor(kind: string, payload: Payload)
    | Started
    | Completed(vendorSessionId: Option<string>)
    | Failed(message: string)

  /** What the hub receives; replay marks restored lifecycle messages. */
  datatype Message =
    | TurnStarted(sessionId: string, wseq: nat, replay: bool)
    | TurnCompleted(sessionId: string, wseq: nat, vendorSessionId: Option<string>, replay: bool)
    | TurnError(sessionId: string, wseq: nat, message: string, replay: bool)
    | EventMessage(sessionId: string, wseq: nat, kind: string, payload: Payload)

  /** How an emission is buffered. */
  function Record(e: Emission): Event {
    match e
    case Vendor(kind, payload) => Event(kind, payload)
    case Started => Event(WSEQ_TURN_STARTED, Payload(None, None, ""))
    case Completed(v) => Event(WSEQ_TURN_COMPLETED, Payload(v, None, ""))
    case Failed(m) => Event(WSEQ_TURN_ERROR, Payload(None, Some(m), ""))
  }

  /** How an emission is sent when it happens. */
  function Live(sessionId: string, wseq: nat, e: Emission): Message {
    match e
    case Vendor(kind, payload) => EventMessage(sessionId, wseq, kind, payload)
    case Started => TurnStarted(sessionId, wseq, false)
    case Completed(v) => TurnCompleted(sessionId, wseq, v, false)
    case Failed(m) => TurnError(sessionId, wseq, m, false)
  }

  function ReplayMessage(sessionId: string, ev: Buffered): Message {
    if ev.kind == WSEQ_TURN_STARTED then TurnStarted(sessionId, ev.wseq, true)
    else if ev.kind == WSEQ_TURN_COMPLETED then TurnCompleted(sessionId, ev.wseq, ev.payload.vendorSessionId, true)
    else if ev.kind == WSEQ_TURN_ERROR then
      TurnError(sessionId, ev.wseq, if ev.payload.message.Some? then ev.payload.message.value else "turn failed", true)
    else EventMessage(sessionId, ev.wseq, ev.kind, ev.payload)
  }

  /** A message with its replay mark set: what replaying it should give. */
  function Restored(m: Message): Message {
    if m.EventMessage? then m else m.(replay := true)
  }

  predicate Marker(kind: string) {
    kind == WSEQ_TURN_STARTED || kind == WSEQ_TURN_COMPLETED || kind == WSEQ_TURN_ERROR
  }

  lemma MarkersDiffer()
    ensures WSEQ_TURN_STARTED != WSEQ_TURN_COMPLETED && WSEQ_TURN_COMPLETED != WSEQ_TURN_ERROR && WSEQ_TURN_STARTED != WSEQ_TURN_ERROR
    ensures !Marker(ATTACH_GAP_KIND)
  {
    assert |WSEQ_TURN_STARTED| == 19 && |WSEQ_TURN_COMPLETED| == 21 && |WSEQ_TURN_ERROR| == 17;
    assert |ATTACH_GAP_KIND| == 17 && ATTACH_GAP_KIND[7] == 'a' && WSEQ_TURN_ERROR[7] == 't';
  }

  /** Replay restores an emission exactly, unless it is a vendor event that uses one of the marker kinds. */
  lemma ReplayRestoresExactly(sessionId: string, wseq: nat, e: Emission)
    ensures ReplayMessage(sessionId, Buffered(wseq, Record(e).kind, Record(e).payload)) == Restored(Live(sessionId, wseq, e))
            <==> !(e.Vendor? && Marker(e.kind))
  {
    MarkersDiffer();
  }

  // ---- the worker -------------------------------------------------------------------------------------

  /** Streams of the live sessions, and the messages sent on the connection. */
  datatype World = World(streams: map<string, seq<Emission>>, sent: seq<Message>)

  function Stream(w: World, sid: string): seq<Emission> {
    if sid in w.streams then w.streams[sid] else []
  }

  function Records(es: seq<Emission>): (r: seq<Event>)
    ensures |r| == |es| && forall i :: 0 <= i < |es| ==> r[i] == Record(es[i])
  {
    seq(|es|, i requires 0 <= i < |es| => Record(es[i]))
  }

  lemma NoRecords()
    ensures Records([]) == []
  {
  }

  function Emit(w: World, sid: string, e: Emission): World {
    var s := Stream(w, sid);
    World(w.streams[sid := s + [e]], w.sent + [Live(sid, |s| + 1, e)])
  }

  function Stop(w: World, sid: string): World {
    w.(streams := w.streams - {sid})
  }

  function ReplayAll(sid: string, evs: seq<Buffered>): (r: seq<Message>)
    ensures |r| == |evs| && forall i :: 0 <= i < |r| ==> r[i] == ReplayMessage(sid, evs[i])
  {
    seq(|evs|, i requires 0 <= i < |evs| => ReplayMessage(sid, evs[i]))
  }

  /** What attach sends for its cursors, in enumeration order. */
  function Replayed(w: World, entries: seq<(string, real)>, max: nat): seq<Message> {
    if entries == [] then []
    else
      var n := |entries| - 1;
      Replayed(w, entries[..n], max) + Answer(w, entries[n].0, entries[n].1, max)
  }

  /** The replay of one session past its cursor. */
  function Answer(w: World, sid: string, afterWseq: real, max: nat): seq<Message> {
    ReplayAll(sid, Owed(Records(Stream(w, sid)), Cursor(afterWseq), max))
  }

  lemma ReplayedMore(w: World, entries: seq<(string, real)>, i: nat, max: nat, sent: seq<Message>)
    requires i < |entries|
    ensures sent + Replayed(w, entries[..i + 1], max) ==
            sent + Replayed(w, entries[..i], max) + Answer(w, entries[i].0, entries[i].1, max)
  {
    assert entries[..i + 1][..i] == entries[..i];
  }

  function Attach(w: World, entries: seq<(string, real)>, max: nat): World {
    w.(sent := w.sent + Replayed(w, entries, max))
  }

  /** The last lifecycle emission of a stream started a turn. */
  function InTurn(s: seq<Emission>): bool {
    if s == [] then false
    else
      var n := |s| - 1;
      if s[n].Vendor? then InTurn(s[..n]) else s[n].Started?
  }

  lemma InTurnSnoc(s: seq<Emission>, e: Emission)
    ensures InTurn(s + [e]) == if e.Vendor? then InTurn(s) else e.Started?
  {
    assert (s + [e])[..|s|] == s;
  }

  /** In a turn: some emission started one, and only vendor events have come since. */
  lemma {:induction false} InTurnMeans(s: seq<Emission>)
    ensures InTurn(s) <==> exists k :: 0 <= k < |s| && s[k].Started? && forall j :: k < j < |s| ==> s[j].Vendor?
  {
    if s != [] {
      var n := |s| - 1;
      InTurnMeans(s[..n]);
      if s[n].Vendor? && InTurn(s[..n]) {
        var k :| 0 <= k < n && s[..n][k].Started? && forall j :: k < j < n ==> s[..n][j].Vendor?;
        assert s[k].Started? && forall j :: k < j < |s| ==> s[j].Vendor?;
      }
      if k :| 0 <= k < |s| && s[k].Started? && forall j :: k < j < |s| ==> s[j].Vendor? {
        if k < n { assert s[..n][k].Started? && s[n].Vendor?; }
      }
    }
  }

  /** The sessions in a turn, after one more emission. */
  function Turned(active: set<string>, sid: string, e: Emission): set<string> {
    if e.Vendor? then active else if e.Started? then active + {sid} else active - {sid}
  }

  ghost predicate Tracks(active: set<string>, streams: map<string, seq<Emission>>) {
    forall t :: t in active <==> t in streams && InTurn(streams[t])
  }

  lemma EmitTracks(active: set<string>, w: World, sid: string, e: Emission)
    requires Tracks(active, w.streams)
    ensures Tracks(Turned(active, sid, e), Emit(w, sid, e).streams)
  {
    InTurnSnoc(Stream(w, sid), e);
  }

  datatype LiveSession = LiveSession(sessionId: string, active: bool, lastWseq: nat)

  class AgentWorker {
    const buf: WseqBuffer
    var activeTurns: set<string>
    /** Messages sent on the current hub connection. */
    var sent: seq<Message>
    ghost var streams: map<string, seq<Emission>>

    ghost predicate Valid()
      reads this, buf
    {
      && buf.Valid()
      && buf.streams.Keys == streams.Keys
      && (forall sid :: sid in streams ==> buf.streams[sid] == Records(streams[sid]))
      && Tracks(activeTurns, streams)
    }

    ghost function Now(): World
      reads this
    {
      World(streams, sent)
    }

    constructor (maxPerSession: nat)
      requires maxPerSession >= 1
      ensures Valid() && Now() == World(map[], []) && fresh(buf) && buf.max == maxPerSession
    {
      buf := new WseqBuffer(maxPerSession);
      activeTurns, sent, streams := {}, [], map[];
    }

    /** The buffered record and the ghost stream of one more emission. */
    method Push(sid: string, ghost e: Emission, kind: string, payload: Payload) returns (wseq: nat)
      requires buf.Valid() && buf.streams.Keys == streams.Keys && Event(kind, payload) == Record(e)
      requires forall t :: t in streams ==> buf.streams[t] == Records(streams[t])
      modifies this`streams, buf
      ensures buf.Valid() && buf.streams.Keys == streams.Keys
      ensures forall t :: t in streams ==> buf.streams[t] == Records(streams[t])
      ensures streams == old(streams)[sid := old(Stream(Now(), sid)) + [e]]
      ensures wseq == |old(Stream(Now(), sid))| + 1
    {
      ghost var s := Stream(Now(), sid);
      assert buf.Stream(sid) == Records(s);
      assert Records(s + [e]) == Records(s) + [Event(kind, payload)];
      wseq := buf.Append(sid, Event(kind, payload));
      streams := streams[sid := s + [e]];
    }

    method EmitEvent(sid: string, kind: string, payload: Payload)
      requires Valid()
      modifies this, buf
      ensures Valid() && Now() == Emit(old(Now()), sid, Vendor(kind, payload))
      ensures sent == old(sent) + [EventMessage(sid, |old(Stream(Now(), sid))| + 1, kind, payload)]
      ensures activeTurns == old(activeTurns)
    {
      ghost var e := Vendor(kind, payload);
      EmitTracks(activeTurns, Now(), sid, e);
      var wseq := Push(sid, e, kind, payload);
      sent := sent + [EventMessage(sid, wseq, kind, payload)];
    }

    method EmitTurnStarted(sid: string)
      requires Valid()
      modifies this, buf
      ensures Valid() && Now() == Emit(old(Now()), sid, Started)
      ensures sent == old(sent) + [TurnStarted(sid, |old(Stream(Now(), sid))| + 1, false)]
      ensures activeTurns == old(activeTurns) + {sid}
    {
      ghost var e := Started;
      var kind, payload := WSEQ_TURN_STARTED, Payload(None, None, "");
      assert Record(e) == Event(kind, payload);
      hide InTurn, Tracks, Record;
      EmitTracks(activeTurns, Now(), sid, e);
      activeTurns := activeTurns + {sid};
      var wseq := Push(sid, e, kind, payload);
      sent := sent + [TurnStarted(sid, wseq, false)];
    }

    method EmitTurnCompleted(sid: string, vendorSessionId: Option<string>)
      requires Valid()
      modifies this, buf
      ensures Valid() && Now() == Emit(old(Now()), sid, Completed(vendorSessionId))
      ensures sent == old(sent) + [TurnCompleted(sid, |old(Stream(Now(), sid))| + 1, vendorSessionId, false)]
      ensures activeTurns == old(activeTurns) - {sid}
    {
      ghost var e := Completed(vendorSessionId);
      EmitTracks(activeTurns, Now(), sid, e);
      activeTurns := activeTurns - {sid};
      var wseq := Push(sid, e, WSEQ_TURN_COMPLETED, Payload(vendorSessionId, None, ""));
      sent := sent + [TurnCompleted(sid, wseq, vendorSessionId, false)];
    }

    method EmitTurnError(sid: string, message: string)
      requires Valid()
      modifies this, buf
      ensures Valid() && Now() == Emit(old(Now()), sid, Failed(message))
      ensures sent == old(sent) + [TurnError(sid, |old(Stream(Now(), sid))| + 1, message, false)]
      ensures activeTurns == old(activeTurns) - {sid}
    {
      ghost var e := Failed(message);
      EmitTracks(activeTurns, Now(), sid, e);
      activeTurns := activeTurns - {sid};
      var wseq := Push(sid, e, WSEQ_TURN_ERROR, Payload(None, Some(message), ""));
      sent := sent + [TurnError(sid, wseq, message, false)];
    }

    method StopSession(sid: string)
      requires Valid()
      modifies this, buf
      ensures Valid() && Now() == Stop(old(Now()), sid)
      ensures sent == old(sent) && streams == old(streams) - {sid} && activeTurns == old(activeTurns) - {sid}
    {
      activeTurns := activeTurns - {sid};
      buf.Forget(sid);
      streams := streams - {sid};
    }

    /** The inner loop of attach: one session's replay. */
    method Replay(sid: string, afterWseq: real, ghost w: World)
      requires Valid() && w.streams == streams
      modifies this`sent
      ensures Valid() && sent == old(sent) + Answer(w, sid, afterWseq, buf.max)
    {
      hide ReplayAll, Owed, Records, InTurn;
      var evs := buf.Since(sid, afterWseq);
      assert sid !in streams ==> Stream(w, sid) == [] && buf.Stream(sid) == [];
      NoRecords();
      assert buf.Stream(sid) == Records(Stream(w, sid));
      sent := sent + ReplayAll(sid, evs);
    }

    /** Replay reads the buffer and sends: streams, counters and active turns stay as they are. */
    method DoAttach(entries: seq<(string, real)>)
      requires Valid()
      modifies this`sent
      ensures Valid() && Now() == Attach(old(Now()), entries, buf.max)
    {
      ghost var w := Now();
      assert Replayed(w, entries[..0], buf.max) == [];
      hide Replayed, Answer;
      var i := 0;
      while i < |entries|
        invariant 0 <= i <= |entries| && Valid()
        invariant sent == w.sent + Replayed(w, entries[..i], buf.max)
      {
        ReplayedMore(w, entries, i, buf.max, w.sent);
        Replay(entries[i].0, entries[i].1, w);
        i := i + 1;
      }
      assert entries[..|entries|] == entries;
    }

    /** A codex session is reported active exactly while its last lifecycle message started a turn. */
    method CodexStatus(sid: string) returns (live: LiveSession)
      requires Valid()
      ensures live.sessionId == sid && live.lastWseq == |Stream(Now(), sid)|
      ensures var s := Stream(Now(), sid);
              live.active <==> exists k :: 0 <= k < |s| && s[k].Started? && forall j :: k < j < |s| ==> s[j].Vendor?
    {
      InTurnMeans(Stream(Now(), sid));
      assert buf.Stream(sid) == Records(Stream(Now(), sid));
      var last := buf.LastWseq(sid);
      live := LiveSession(sid, sid in activeTurns, last);
    }
  }

  // ---- one connection ------------------------------------------------------------------------------------

  datatype Op = EmitOp(sid: string, e: Emission) | StopOp(sid: string)

  function Step(w: World, op: Op): World {
    match op
    case EmitOp(sid, e) => Emit(w, sid, e)
    case StopOp(sid) => Stop(w, sid)
  }

  function Run(w: World, ops: seq<Op>): World {
    if ops == [] then w
    else
      var n := |ops| - 1;
      Step(Run(w, ops[..n]), ops[n])
  }

  /** The messages of one session. */
  function For(sid: string, ms: seq<Message>): seq<Message> {
    if ms == [] then []
    else
      var n := |ms| - 1;
      For(sid, ms[..n]) + if ms[n].sessionId == sid then [ms[n]] else []
  }

  lemma {:induction false} ForConcat(sid: string, a: seq<Message>, b: seq<Message>)
    ensures For(sid, a + b) == For(sid, a) + For(sid, b)
  {
    if b == [] {
      assert a + b == a;
    } else {
      var n := |b| - 1;
      ForConcat(sid, a, b[..n]);
      assert (a + b)[..|a| + n] == a + b[..n];
    }
  }

  lemma {:induction false} ForAll(sid: string, ms: seq<Message>, to: string)
    requires forall i :: 0 <= i < |ms| ==> ms[i].sessionId == to
    ensures For(sid, ms) == if sid == to then ms else []
  {
    if ms != [] {
      var n := |ms| - 1;
      ForAll(sid, ms[..n], to);
      assert ms[..n] + [ms[n]] == ms;
    }
  }

  /** The live messages of a stream from a position on. */
  function LiveFrom(sid: string, s: seq<Emission>, start: nat): (r: seq<Message>)
    requires start <= |s|
    ensures |r| == |s| - start
    ensures forall i :: 0 <= i < |r| ==> r[i] == Live(sid, start + i + 1, s[start + i])
  {
    seq(|s| - start, i requires 0 <= i < |s| - start => Live(sid, start + i + 1, s[start + i]))
  }

  predicate Stops(ops: seq<Op>, sid: string) {
    exists i :: 0 <= i < |ops| && ops[i] == StopOp(sid)
  }

  /** While a session is not stopped, its messages are its own emissions, each once, in order. */
  lemma {:induction false} LiveMessages(w: World, ops: seq<Op>, sid: string)
    requires !Stops(ops, sid)
    ensures var s, t := Stream(w, sid), Stream(Run(w, ops), sid);
            s <= t && For(sid, Run(w, ops).sent) == For(sid, w.sent) + LiveFrom(sid, t, |s|)
  {
    hide LiveFrom, Emit, For;
    if ops == [] {
      assert LiveFrom(sid, Stream(w, sid), |Stream(w, sid)|) == [];
    } else {
      var n := |ops| - 1;
      assert forall i :: 0 <= i < n ==> ops[..n][i] == ops[i];
      LiveMessages(w, ops[..n], sid);
      var mid := Run(w, ops[..n]);
      if ops[n].EmitOp? {
        LiveEmit(w, mid, sid, ops[n].sid, ops[n].e);
      }
    }
  }

  lemma LiveEmit(w: World, mid: World, sid: string, to: string, e: Emission)
    requires Stream(w, sid) <= Stream(mid, sid)
    requires For(sid, mid.sent) == For(sid, w.sent) + LiveFrom(sid, Stream(mid, sid), |Stream(w, sid)|)
    ensures var t := Stream(Emit(mid, to, e), sid);
            Stream(w, sid) <= t && For(sid, Emit(mid, to, e).sent) == For(sid, w.sent) + LiveFrom(sid, t, |Stream(w, sid)|)
  {
    hide For, LiveFrom, Live, Emit, Stream;
    EmitFor(mid, sid, to, e);
    LiveFromMore(sid, Stream(mid, sid), |Stream(w, sid)|, e);
    Assoc(For(sid, w.sent), LiveFrom(sid, Stream(mid, sid), |Stream(w, sid)|), [Live(sid, |Stream(mid, sid)| + 1, e)]);
  }

  lemma EmitFor(w: World, sid: string, to: string, e: Emission)
    ensures For(sid, Emit(w, to, e).sent) == if to == sid then For(sid, w.sent) + [Live(sid, |Stream(w, sid)| + 1, e)] else For(sid, w.sent)
    ensures Stream(Emit(w, to, e), sid) == if to == sid then Stream(w, sid) + [e] else Stream(w, sid)
  {
    var m := Live(to, |Stream(w, to)| + 1, e);
    assert (w.sent + [m])[..|w.sent|] == w.sent;
    assert m.sessionId == to;
  }

  lemma LiveFromMore(sid: string, s: seq<Emission>, start: nat, e: Emission)
    requires start <= |s|
    ensures LiveFrom(sid, s + [e], start) == LiveFrom(sid, s, start) + [Live(sid, |s| + 1, e)]
  {
  }

  predicate DistinctIds(entries: seq<(string, real)>) {
    forall i, j :: 0 <= i < j < |entries| ==> entries[i].0 != entries[j].0
  }

  lemma AnswerFor(w: World, sid: string, to: string, afterWseq: real, max: nat)
    ensures For(sid, Answer(w, to, afterWseq, max)) == if sid == to then Answer(w, to, afterWseq, max) else []
  {
    ForAll(sid, Answer(w, to, afterWseq, max), to);
  }

  lemma ReplayFor(w: World, entries: seq<(string, real)>, max: nat, sid: string)
    requires entries != []
    ensures var n := |entries| - 1;
            For(sid, Replayed(w, entries, max)) == For(sid, Replayed(w, entries[..n], max))
            + if entries[n].0 == sid then Answer(w, sid, entries[n].1, max) else []
  {
    var n := |entries| - 1;
    ForConcat(sid, Replayed(w, entries[..n], max), Answer(w, entries[n].0, entries[n].1, max));
    AnswerFor(w, sid, entries[n].0, entries[n].1, max);
  }

  /** Attach sends nothing to a session it was not asked about. */
  lemma {:induction false} AttachSkips(w: World, entries: seq<(string, real)>, max: nat, sid: string)
    requires forall i :: 0 <= i < |entries| ==> entries[i].0 != sid
    ensures For(sid, Replayed(w, entries, max)) == []
  {
    hide Answer;
    if entries != [] {
      AttachSkips(w, entries[..|entries| - 1], max, sid);
      ReplayFor(w, entries, max, sid);
    }
  }

  /** Attach sends a requested session what its cursor is owed, once. */
  lemma {:induction false} AttachSends(w: World, entries: seq<(string, real)>, max: nat, i: nat)
    requires DistinctIds(entries) && i < |entries|
    ensures For(entries[i].0, Replayed(w, entries, max)) == Answer(w, entries[i].0, entries[i].1, max)
  {
    hide Answer;
    var n := |entries| - 1;
    ReplayFor(w, entries, max, entries[i].0);
    if i < n {
      AttachSends(w, entries[..n], max, i);
    } else {
      AttachSkips(w, entries[..n], max, entries[i].0);
    }
  }

  /** From a position on, no vendor event uses one of the marker kinds. */
  predicate OrdinaryFrom(s: seq<Emission>, start: nat) {
    forall i :: start <= i < |s| ==> !(s[i].Vendor? && Marker(s[i].kind))
  }

  function RestoredAll(ms: seq<Message>): (r: seq<Message>)
    ensures |r| == |ms| && forall i :: 0 <= i < |r| ==> r[i] == Restored(ms[i])
  {
    seq(|ms|, i requires 0 <= i < |ms| => Restored(ms[i]))
  }

  /** The gap message, if trimming took events past the cursor. */
  function GapMessages(sid: string, dropped: nat, cursor: nat): seq<Message> {
    if cursor < dropped then [ReplayMessage(sid, Gap(dropped))] else []
  }

  function Later(a: nat, b: nat): nat { if a < b then b else a }

  lemma TailRestored(sid: string, s: seq<Emission>, start: nat)
    requires start <= |s|
    ensures ReplayAll(sid, Stamped(Records(s))[start..]) == RestoredAll(LiveFrom(sid, s, start)) <==> OrdinaryFrom(s, start)
  {
    var tail := Stamped(Records(s))[start..];
    var there, promised := ReplayAll(sid, tail), RestoredAll(LiveFrom(sid, s, start));
    forall i | start <= i < |s|
      ensures there[i - start] == promised[i - start] <==> !(s[i].Vendor? && Marker(s[i].kind))
    {
      assert tail[i - start] == Buffered(i + 1, Record(s[i]).kind, Record(s[i]).payload);
      ReplayRestoresExactly(sid, i + 1, s[i]);
    }
    hide ReplayMessage, Restored, Live, Record, Marker;
    if OrdinaryFrom(s, start) {
      forall i | 0 <= i < |there| ensures there[i] == promised[i] { assert !(s[start + i].Vendor? && Marker(s[start + i].kind)); }
    }
  }

  lemma ReplayConcat(sid: string, a: seq<Buffered>, b: seq<Buffered>)
    ensures ReplayAll(sid, a + b) == ReplayAll(sid, a) + ReplayAll(sid, b)
  {
    hide ReplayMessage;
  }

  /**
   A replay is the gap message followed by the stream past the cursor, restored, exactly if no vendor
   event in that part of the stream uses a marker kind.
  */
  lemma ReplayIsStream(sid: string, s: seq<Emission>, cursor: nat, max: nat)
    requires max >= 1
    ensures var dropped := Dropped(Records(s), max);
            ReplayAll(sid, Owed(Records(s), cursor, max)) ==
            GapMessages(sid, dropped, cursor)
            + (if Later(cursor, dropped) <= |s| then RestoredAll(LiveFrom(sid, s, Later(cursor, dropped))) else [])
            <==> OrdinaryFrom(s, Later(cursor, dropped))
    ensures var dropped := Dropped(Records(s), max);
            ReplayAll(sid, Owed(Records(s), cursor, max)) == GapMessages(sid, dropped, cursor) + Tail(sid, s, Later(cursor, dropped))
  {
    var dropped := Dropped(Records(s), max);
    var start := Later(cursor, dropped);
    var gap := if cursor < dropped then [Gap(dropped)] else [];
    var tail := if start <= |s| then Stamped(Records(s))[start..] else [];
    if start <= |s| { TailRestored(sid, s, start); }
    hide ReplayMessage, RestoredAll, LiveFrom, Stamped, Records, Gap, Marker;
    ReplayConcat(sid, gap, tail);
    assert ReplayAll(sid, gap) == GapMessages(sid, dropped, cursor);
    assert start > |s| ==> ReplayAll(sid, tail) == [];
    PrefixCancels(GapMessages(sid, dropped, cursor), ReplayAll(sid, tail),
                  if start <= |s| then RestoredAll(LiveFrom(sid, s, start)) else []);
  }

  /** The replayed part of a stream, gap message aside. */
  function Tail(sid: string, s: seq<Emission>, start: nat): seq<Message> {
    ReplayAll(sid, if start <= |s| then Stamped(Records(s))[start..] else [])
  }

  lemma PrefixCancels<T>(a: seq<T>, b: seq<T>, c: seq<T>)
    ensures a + b == a + c <==> b == c
  {
    assert (a + b)[|a|..] == b && (a + c)[|a|..] == c;
  }

  // ---- theorems ----------------------------------------------------------------------------------------------

  /** Everything a requested session receives: what attach owes it, then its live emissions. */
  function Received(sid: string, before: seq<Emission>, after: seq<Emission>, cursor: nat, max: nat): seq<Message>
    requires |before| <= |after|
  {
    ReplayAll(sid, Owed(Records(before), cursor, max)) + LiveFrom(sid, after, |before|)
  }

  /**
   On one connection, from attach on, a session that is not stopped receives exactly that, for the
   number the hub sends as its cursor: a whole number stands for itself, a fraction for the whole
   number below it, a negative number for 0.
  */
  lemma ConnectionDelivers(w: World, entries: seq<(string, real)>, i: nat, cursor: nat, ops: seq<Op>, max: nat)
    requires w.sent == [] && DistinctIds(entries) && i < |entries| && !Stops(ops, entries[i].0)
    requires cursor as real <= entries[i].1 < (cursor + 1) as real || (entries[i].1 < 0.0 && cursor == 0)
    ensures var sid := entries[i].0;
            var before, after := Stream(w, sid), Stream(Run(Attach(w, entries, max), ops), sid);
            before <= after
            && For(sid, Run(Attach(w, entries, max), ops).sent) == Received(sid, before, after, cursor, max)
  {
    assert Cursor(entries[i].1) == cursor;
    var sid := entries[i].0;
    var a := Attach(w, entries, max);
    assert Stream(a, sid) == Stream(w, sid);
    hide For, Run, LiveFrom, Replayed, Stream, ReplayAll, Owed, Records;
    assert a.sent == [] + Replayed(w, entries, max) == Replayed(w, entries, max);
    AttachSends(w, entries, max, i);
    LiveMessages(a, ops, sid);
  }

  /** A session the hub did not ask about receives only what it emits after attach. */
  lemma UnrequestedOnlyLive(w: World, entries: seq<(string, real)>, ops: seq<Op>, max: nat, sid: string)
    requires w.sent == [] && (forall i :: 0 <= i < |entries| ==> entries[i].0 != sid) && !Stops(ops, sid)
    ensures var before, after := Stream(w, sid), Stream(Run(Attach(w, entries, max), ops), sid);
            before <= after && For(sid, Run(Attach(w, entries, max), ops).sent) == LiveFrom(sid, after, |before|)
  {
    var a := Attach(w, entries, max);
    assert a.sent == Replayed(w, entries, max);
    AttachSkips(w, entries, max, sid);
    LiveMessages(a, ops, sid);
    assert Stream(a, sid) == Stream(w, sid);
    assert [] + LiveFrom(sid, Stream(Run(a, ops), sid), |Stream(w, sid)|) == LiveFrom(sid, Stream(Run(a, ops), sid), |Stream(w, sid)|);
  }

  /** The stream past the cursor, markers as lifecycle messages, behind a gap message if events were trimmed. */
  function Promised(sid: string, after: seq<Emission>, cursor: nat, dropped: nat): seq<Message> {
    GapMessages(sid, dropped, cursor)
    + if Later(cursor, dropped) <= |after| then RestoredAll(LiveFrom(sid, after, Later(cursor, dropped))) else []
  }

  lemma LiveSplit(sid: string, after: seq<Emission>, start: nat, mid: nat)
    requires start <= mid <= |after|
    ensures RestoredAll(LiveFrom(sid, after, start)) ==
            RestoredAll(LiveFrom(sid, after[..mid], start)) + RestoredAll(LiveFrom(sid, after, mid))
  {
  }

  lemma RestoredConcat(a: seq<Message>, b: seq<Message>)
    ensures RestoredAll(a + b) == RestoredAll(a) + RestoredAll(b)
  {
  }

  lemma ReplayRestored(sid: string, evs: seq<Buffered>)
    ensures RestoredAll(ReplayAll(sid, evs)) == ReplayAll(sid, evs)
  {
  }

  /** What a requested session receives, restored: gap message, replayed tail, restored live messages. */
  lemma ReceivedRestored(sid: string, before: seq<Emission>, after: seq<Emission>, cursor: nat, max: nat)
    requires max >= 1 && before <= after
    ensures var dropped := Dropped(Records(before), max);
            RestoredAll(Received(sid, before, after, cursor, max)) ==
            GapMessages(sid, dropped, cursor) + Tail(sid, before, Later(cursor, dropped))
            + RestoredAll(LiveFrom(sid, after, |before|))
  {
    ReplayIsStream(sid, before, cursor, max);
    RestoredConcat(ReplayAll(sid, Owed(Records(before), cursor, max)), LiveFrom(sid, after, |before|));
    ReplayRestored(sid, Owed(Records(before), cursor, max));
    hide ReplayAll, RestoredAll, LiveFrom, Owed, Tail, GapMessages, Records;
  }

  lemma MiddleCancels<T>(a: seq<T>, b: seq<T>, c: seq<T>, d: seq<T>)
    requires |b| == |c|
    ensures a + b + d == a + (c + d) <==> b == c
  {
    assert (a + b + d)[|a|..|a| + |b|] == b;
    assert (a + (c + d))[|a|..|a| + |b|] == c;
    if b == c { Assoc(a, b, d); }
  }

  /**
   Up to the replay mark, a requested session receives exactly its stream past the hub's cursor, gap
   message first if trimmed, if and only if the cursor was not ahead of the stream at attach, or nothing
   was emitted afterwards, and no vendor event that is replayed uses a marker kind: a cursor ahead of the
   stream does not hold back live events at or below it.
  */
  lemma DeliversStreamExactly(sid: string, before: seq<Emission>, after: seq<Emission>, cursor: nat, max: nat)
    requires max >= 1 && before <= after
    ensures var dropped := Dropped(Records(before), max);
            RestoredAll(Received(sid, before, after, cursor, max)) == Promised(sid, after, cursor, dropped)
            <==> (cursor <= |before| || |after| == |before|) && OrdinaryFrom(before, Later(cursor, dropped))
  {
    var dropped := Dropped(Records(before), max);
    var start, live := Later(cursor, dropped), RestoredAll(LiveFrom(sid, after, |before|));
    var gap, tail := GapMessages(sid, dropped, cursor), Tail(sid, before, start);
    ReceivedRestored(sid, before, after, cursor, max);
    if start <= |before| {
      TailRestored(sid, before, start);
      var promised := RestoredAll(LiveFrom(sid, before, start));
      assert after[..|before|] == before;
      LiveSplit(sid, after, start, |before|);
      hide RestoredAll, LiveFrom, ReplayAll, Received, Marker, Stamped, Records;
      MiddleCancels(gap, tail, promised, live);
    } else {
      assert gap == [] && tail == [];
    }
  }

  /** A worker of any past runs one connection: which sessions are in a turn is read off their streams. */
  lemma {:induction false} TurnsFollowStreams(active: set<string>, w: World, ops: seq<Op>)
    requires Tracks(active, w.streams)
    ensures Tracks(TurnsAfter(active, ops), Run(w, ops).streams)
  {
    if ops != [] {
      var n := |ops| - 1;
      TurnsFollowStreams(active, w, ops[..n]);
      var mid, turns := Run(w, ops[..n]), TurnsAfter(active, ops[..n]);
      match ops[n]
      case EmitOp(sid, e) => EmitTracks(turns, mid, sid, e);
      case StopOp(sid) =>
    }
  }

  /** activeTurns after a run: a set updated by turn messages and stops only. */
  function TurnsAfter(active: set<string>, ops: seq<Op>): set<string> {
    if ops == [] then active
    else
      var n := |ops| - 1;
      match ops[n]
      case EmitOp(sid, e) => Turned(TurnsAfter(active, ops[..n]), sid, e)
      case StopOp(sid) => TurnsAfter(active, ops[..n]) - {sid}
  }

  /** The cursor-ahead case: the hub asks from 5, the fresh session emits its first event, and it is sent. */
  lemma CursorAheadCounterexample(sid: string, e: Emission)
    ensures RestoredAll(Received(sid, [], [e], 5, 1000)) != Promised(sid, [e], 5, 0)
  {
    DeliversStreamExactly(sid, [], [e], 5, 1000);
  }
}
