/**
 consumeBoundedLines: newline-delimited bytes arriving in arbitrary chunks. `Feed` is the reader byte
 by byte; the class is the chunked reader; `Split` is the whole input cut at its newlines.
*/
module BoundedLines {
  type Byte = n: int | 0 <= n < 256
  type Bytes = seq<Byte>

  const LF: Byte := 0x0A
  const CR: Byte := 0x0D

  /** Whether the consumer calls the returned stop function from onLine, given the lines it has so far. */
  type Consumer = seq<Bytes> -> bool

  function StripCr(line: Bytes): Bytes {
    if line != [] && line[|line| - 1] == CR then line[..|line| - 1] else line
  }

  // ---- the reader, byte by byte ----------------------------------------------------------------------

  /** rest is the retained part of the unfinished line; overflows counts onOverflow calls. */
  datatype View = View(lines: seq<Bytes>, rest: Bytes, stopped: bool, overflows: nat)

  const START := View([], [], false, 0)

  function Deliver(v: View, wantsStop: Consumer): View {
    var lines := v.lines + [StripCr(v.rest)];
    View(lines, [], wantsStop(lines), v.overflows)
  }

  function Take(v: View, b: Byte, max: nat, wantsStop: Consumer): View {
    if v.stopped then v
    else if b == LF then Deliver(v, wantsStop)
    else if |v.rest| + 1 > max then View(v.lines, [], true, v.overflows + 1)
    else v.(rest := v.rest + [b])
  }

  function Feed(v: View, s: Bytes, max: nat, wantsStop: Consumer): View
    decreases |s|
  {
    if s == [] then v else Feed(Take(v, s[0], max, wantsStop), s[1..], max, wantsStop)
  }

  function Finish(v: View): View {
    if v.stopped then v
    else View(if v.rest == [] then v.lines else v.lines + [StripCr(v.rest)], [], true, v.overflows)
  }

  /** The consumer calls the returned stop function between two chunks. */
  function Stopped(v: View): View {
    if v.stopped then v else View(v.lines, [], true, v.overflows)
  }

  /** A whole session: all chunks and the end of the stream, or a stop after the first stopAfter chunks. */
  function Session(chunks: seq<Bytes>, stopAfter: nat, max: nat, wantsStop: Consumer): View {
    if stopAfter <= |chunks| then Stopped(Feed(START, Concat(chunks[..stopAfter]), max, wantsStop))
    else Finish(Feed(START, Concat(chunks), max, wantsStop))
  }

  lemma {:induction false} FeedStopped(v: View, s: Bytes, max: nat, wantsStop: Consumer)
    requires v.stopped
    ensures Feed(v, s, max, wantsStop) == v
  {
    if s != [] { FeedStopped(v, s[1..], max, wantsStop); }
  }

  /** Chunking does not matter: feeding two chunks is feeding their concatenation. */
  lemma {:induction false} FeedConcat(v: View, s: Bytes, t: Bytes, max: nat, wantsStop: Consumer)
    ensures Feed(Feed(v, s, max, wantsStop), t, max, wantsStop) == Feed(v, s + t, max, wantsStop)
    decreases |s|
  {
    if s == [] {
      assert s + t == t;
    } else {
      assert (s + t)[1..] == s[1..] + t;
      FeedConcat(Take(v, s[0], max, wantsStop), s[1..], t, max, wantsStop);
    }
  }

  /** A stretch without newline is retained, or overflows as a whole. */
  lemma {:induction false} FeedPlain(v: View, s: Bytes, max: nat, wantsStop: Consumer)
    requires !v.stopped && LF !in s && |v.rest| <= max
    ensures Feed(v, s, max, wantsStop) ==
            if |v.rest| + |s| > max then View(v.lines, [], true, v.overflows + 1) else v.(rest := v.rest + s)
    decreases |s|
  {
    if s == [] {
      assert v.rest + s == v.rest;
    } else {
      assert s[0] in s;
      var w := Take(v, s[0], max, wantsStop);
      if w.stopped {
        FeedStopped(w, s[1..], max, wantsStop);
      } else {
        FeedPlain(w, s[1..], max, wantsStop);
        assert v.rest + [s[0]] + s[1..] == v.rest + s;
      }
    }
  }

  lemma FeedOne(v: View, b: Byte, max: nat, wantsStop: Consumer)
    ensures Feed(v, [b], max, wantsStop) == Take(v, b, max, wantsStop)
  {
    assert [b][1..] == [];
  }

  // ---- the chunked reader --------------------------------------------------------------------------------

  function Concat(pieces: seq<Bytes>): Bytes {
    if pieces == [] then [] else pieces[0] + Concat(pieces[1..])
  }

  lemma {:induction false} ConcatPush(pieces: seq<Bytes>, piece: Bytes)
    ensures Concat(pieces + [piece]) == Concat(pieces) + piece
  {
    if pieces == [] {
      assert [piece][1..] == [];
    } else {
      assert (pieces + [piece])[1..] == pieces[1..] + [piece];
      ConcatPush(pieces[1..], piece);
      assert pieces[0] + (Concat(pieces[1..]) + piece) == pieces[0] + Concat(pieces[1..]) + piece;
    }
  }

  /** Index of the first newline at or after start, or -1. */
  method NextNewline(chunk: Bytes, start: nat) returns (n: int)
    requires start <= |chunk|
    ensures n == -1 ==> LF !in chunk[start..]
    ensures n != -1 ==> start <= n < |chunk| && chunk[n] == LF && LF !in chunk[start..n]
  {
    n := start;
    while n < |chunk|
      invariant start <= n <= |chunk|
      invariant forall i :: start <= i < n ==> chunk[i] != LF
    {
      if chunk[n] == LF { return; }
      n := n + 1;
    }
    n := -1;
  }

  class LineReader {
    const maxLineBytes: nat
    const wantsStop: Consumer
    var pieces: seq<Bytes>
    var lineBytes: nat
    var stopped: bool
    /** Calls made to onLine and onOverflow. */
    var lines: seq<Bytes>
    var overflows: nat

    /** Retained bytes are counted and never exceed the bound. */
    ghost predicate Retained()
      reads this
    {
      lineBytes == |Concat(pieces)| <= maxLineBytes && (lineBytes == 0 ==> pieces == [])
    }

    ghost predicate Valid()
      reads this
    {
      Retained() && (stopped ==> pieces == [])
    }

    ghost function Now(): View
      reads this
    {
      View(lines, Concat(pieces), stopped, overflows)
    }

    ghost function After(v: View, s: Bytes): View {
      Feed(v, s, maxLineBytes, wantsStop)
    }

    constructor (maxLineBytes: nat, wantsStop: Consumer)
      requires maxLineBytes >= 1
      ensures Valid() && Now() == START
      ensures this.maxLineBytes == maxLineBytes && this.wantsStop == wantsStop
    {
      this.maxLineBytes, this.wantsStop := maxLineBytes, wantsStop;
      pieces, lineBytes, stopped, lines, overflows := [], 0, false, [], 0;
    }

    method Stop()
      requires Valid()
      modifies this
      ensures Valid() && Now() == old(Now()).(rest := [], stopped := true)
    {
      if stopped { return; }
      stopped := true;
      pieces, lineBytes := [], 0;
    }

    /** The unfinished line goes to onLine; the consumer is not asked to stop here. */
    method Emit()
      requires Retained()
      modifies this
      ensures Valid() && stopped == old(stopped) && overflows == old(overflows)
      ensures lines == old(lines) + [StripCr(old(Now().rest))] && pieces == []
    {
      var bytes := Concat(pieces);
      pieces, lineBytes := [], 0;
      var end := if |bytes| > 0 && bytes[|bytes| - 1] == CR then |bytes| - 1 else |bytes|;
      assert bytes[..|bytes|] == bytes;
      lines := lines + [bytes[..end]];
    }

    method Append(chunk: Bytes, start: nat, end: nat) returns (fits: bool)
      requires Valid() && !stopped && start <= end <= |chunk| && LF !in chunk[start..end]
      modifies this
      ensures Valid() && fits == !stopped
      ensures Now() == After(old(Now()), chunk[start..end])
    {
      FeedPlain(Now(), chunk[start..end], maxLineBytes, wantsStop);
      var added := end - start;
      var observedBytes := lineBytes + added;
      if observedBytes > maxLineBytes {
        Stop();
        overflows := overflows + 1;
        return false;
      }
      if added > 0 {
        ConcatPush(pieces, chunk[start..end]);
        pieces := pieces + [chunk[start..end]];
        lineBytes := observedBytes;
      } else {
        assert Concat(pieces) + chunk[start..end] == Concat(pieces);
      }
      return true;
    }

    /** One chunk has the effect of its bytes one at a time. */
    method OnData(chunk: Bytes)
      requires Valid()
      modifies this
      ensures Valid() && Now() == After(old(Now()), chunk)
    {
      ghost var v := Now();
      if stopped {
        FeedStopped(v, chunk, maxLineBytes, wantsStop);
        return;
      }
      var start := 0;
      while start < |chunk|
        invariant 0 <= start <= |chunk| && Valid() && !stopped
        invariant Now() == After(v, chunk[..start])
      {
        var newline := NextNewline(chunk, start);
        var end := if newline < 0 then |chunk| else newline;
        var fits := Append(chunk, start, end);
        Extend(v, chunk, start, end);
        if !fits || newline < 0 {
          Rest(v, chunk, end, fits, newline);
          return;
        }
        Emit();
        if wantsStop(lines) { Stop(); }
        FeedOne(After(v, chunk[..end]), LF, maxLineBytes, wantsStop);
        FeedConcat(v, chunk[..end], [LF], maxLineBytes, wantsStop);
        assert chunk[..newline + 1] == chunk[..end] + [LF];
        if stopped {
          FeedStopped(Now(), chunk[newline + 1..], maxLineBytes, wantsStop);
          Extend(v, chunk, newline + 1, |chunk|);
          assert chunk[..|chunk|] == chunk;
          return;
        }
        start := newline + 1;
      }
      assert chunk[..start] == chunk;
    }

    lemma Extend(v: View, chunk: Bytes, start: nat, end: nat)
      requires start <= end <= |chunk|
      ensures After(After(v, chunk[..start]), chunk[start..end]) == After(v, chunk[..end])
    {
      FeedConcat(v, chunk[..start], chunk[start..end], maxLineBytes, wantsStop);
      assert chunk[..start] + chunk[start..end] == chunk[..end];
    }

    lemma Rest(v: View, chunk: Bytes, end: nat, fits: bool, newline: int)
      requires end <= |chunk| && (!fits || newline < 0) && (newline < 0 ==> end == |chunk|)
      requires !fits ==> After(v, chunk[..end]).stopped
      ensures After(v, chunk[..end]) == After(v, chunk)
    {
      assert chunk[..|chunk|] == chunk;
      if !fits {
        FeedStopped(After(v, chunk[..end]), chunk[end..], maxLineBytes, wantsStop);
        Extend(v, chunk, end, |chunk|);
      }
    }

    /** The stream ended: an unfinished nonempty line is still delivered. */
    method OnEnd()
      requires Valid()
      modifies this
      ensures Valid() && Now() == Finish(old(Now()))
    {
      if stopped { return; }
      stopped := true;
      if lineBytes > 0 {
        Emit();
      }
    }
  }

  /** The chunks in order, then the end of the stream, unless the consumer stops after some of them. */
  method ReadAll(chunks: seq<Bytes>, stopAfter: nat, maxLineBytes: nat, wantsStop: Consumer) returns (reader: LineReader)
    requires maxLineBytes >= 1
    ensures reader.Now() == Session(chunks, stopAfter, maxLineBytes, wantsStop)
  {
    reader := new LineReader(maxLineBytes, wantsStop);
    var i := 0;
    assert Concat(chunks[..0]) == [];
    while i < |chunks|
      invariant 0 <= i <= |chunks| && fresh(reader) && reader.Valid()
      invariant reader.maxLineBytes == maxLineBytes && reader.wantsStop == wantsStop
      invariant i <= stopAfter ==> reader.Now() == Feed(START, Concat(chunks[..i]), maxLineBytes, wantsStop)
      invariant i > stopAfter ==>
                  reader.Now().stopped && reader.Now() == Session(chunks, stopAfter, maxLineBytes, wantsStop)
    {
      if i == stopAfter { reader.Stop(); }
      ghost var before := reader.Now();
      reader.OnData(chunks[i]);
      if i >= stopAfter {
        FeedStopped(before, chunks[i], maxLineBytes, wantsStop);
      } else {
        FeedConcat(START, Concat(chunks[..i]), chunks[i], maxLineBytes, wantsStop);
        ConcatPush(chunks[..i], chunks[i]);
        assert chunks[..i + 1] == chunks[..i] + [chunks[i]];
      }
      i := i + 1;
    }
    assert chunks[..|chunks|] == chunks;
    if i == stopAfter { reader.Stop(); }
    reader.OnEnd();
  }

  // ---- the whole input, cut at its newlines -----------------------------------------------------------------

  /** The pieces between newlines; the last piece is the unterminated one. */
  function Split(s: Bytes): (raws: seq<Bytes>)
    ensures raws != []
  {
    if s == [] then [[]]
    else
      var t := Split(s[1..]);
      if s[0] == LF then [[]] + t else [[s[0]] + t[0]] + t[1..]
  }

  function Stripped(raws: seq<Bytes>): (lines: seq<Bytes>)
    ensures |lines| == |raws|
    ensures forall i :: 0 <= i < |raws| ==> lines[i] == StripCr(raws[i])
    ensures forall i :: 0 <= i < |raws| ==>
              lines[i] == if |raws[i]| > 0 && raws[i][|raws[i]| - 1] == 0x0D then raws[i][..|raws[i]| - 1] else raws[i]
  {
    seq(|raws|, i requires 0 <= i < |raws| => StripCr(raws[i]))
  }

  /** Piece k is where reading ends: nothing before it was too long or made the consumer stop. */
  ghost predicate Reaches(lines: seq<Bytes>, raws: seq<Bytes>, k: nat, max: nat, wantsStop: Consumer)
    requires k < |raws|
  {
    && (forall j :: 0 <= j < k ==> |raws[j]| <= max)
    && (forall j :: 0 < j < k ==> !wantsStop(lines + Stripped(raws[..j])))
  }

  /** The view after reading up to piece k. */
  function At(v: View, raws: seq<Bytes>, k: nat, max: nat, wantsStop: Consumer): View
    requires k < |raws|
  {
    var lines := v.lines + Stripped(raws[..k]);
    if k > 0 && wantsStop(lines) then View(lines, [], true, v.overflows)
    else if |raws[k]| > max then View(lines, [], true, v.overflows + 1)
    else View(lines, raws[k], false, v.overflows)
  }

  /** Piece k is the last one, or reading stops there. */
  predicate Ends(lines: seq<Bytes>, raws: seq<Bytes>, k: nat, max: nat, wantsStop: Consumer)
    requires k < |raws|
  {
    k == |raws| - 1 || |raws[k]| > max || (k > 0 && wantsStop(lines + Stripped(raws[..k])))
  }

  /** The pieces of an unfinished line plus more input. */
  function Joined(rest: Bytes, raws: seq<Bytes>): seq<Bytes>
    requires raws != []
  {
    [rest + raws[0]] + raws[1..]
  }

  lemma {:induction false} FeedCuts(v: View, s: Bytes, max: nat, wantsStop: Consumer) returns (k: nat)
    requires !v.stopped && |v.rest| <= max
    ensures k < |Split(s)|
    ensures var raws := Joined(v.rest, Split(s));
            Reaches(v.lines, raws, k, max, wantsStop) && Ends(v.lines, raws, k, max, wantsStop)
            && Feed(v, s, max, wantsStop) == At(v, raws, k, max, wantsStop)
    decreases |s|
  {
    var raws := Joined(v.rest, Split(s));
    if s == [] {
      k := 0;
      assert v.lines + Stripped(raws[..0]) == v.lines;
      assert v.rest + [] == v.rest;
    } else {
      var w := Take(v, s[0], max, wantsStop);
      if s[0] == LF {
        k := CutsAfterLine(v, s, max, wantsStop);
      } else if |v.rest| + 1 > max {
        FeedStopped(w, s[1..], max, wantsStop);
        k := 0;
        assert v.lines + Stripped(raws[..0]) == v.lines;
      } else {
        k := FeedCuts(w, s[1..], max, wantsStop);
        assert v.rest + [s[0]] + Split(s[1..])[0] == v.rest + ([s[0]] + Split(s[1..])[0]);
        assert Joined(w.rest, Split(s[1..])) == raws;
      }
    }
  }

  lemma StrippedCons(lines: seq<Bytes>, raw: Bytes, raws: seq<Bytes>)
    ensures lines + Stripped([raw] + raws) == lines + [StripCr(raw)] + Stripped(raws)
  {
  }

  lemma {:induction false} CutsAfterLine(v: View, s: Bytes, max: nat, wantsStop: Consumer) returns (k: nat)
    requires !v.stopped && |v.rest| <= max && s != [] && s[0] == LF
    ensures k < |Split(s)|
    ensures var raws := Joined(v.rest, Split(s));
            Reaches(v.lines, raws, k, max, wantsStop) && Ends(v.lines, raws, k, max, wantsStop)
            && Feed(v, s, max, wantsStop) == At(v, raws, k, max, wantsStop)
    decreases |s|, 0
  {
    var raws, w := Joined(v.rest, Split(s)), Take(v, LF, max, wantsStop);
    assert raws == [v.rest] + Split(s[1..]) by { assert v.rest + [] == v.rest; }
    assert w.lines == v.lines + Stripped(raws[..1]) by { assert raws[..1] == [v.rest]; assert Stripped([v.rest]) == [StripCr(v.rest)]; }
    if w.stopped {
      FeedStopped(w, s[1..], max, wantsStop);
      k := 1;
    } else {
      var m := FeedCuts(w, s[1..], max, wantsStop);
      var later := Joined(w.rest, Split(s[1..]));
      assert later == Split(s[1..]) by { assert [] + Split(s[1..])[0] == Split(s[1..])[0]; }
      k := m + 1;
      Shift(v, w, raws, later, m, max, wantsStop);
    }
  }

  lemma Shift(v: View, w: View, raws: seq<Bytes>, later: seq<Bytes>, m: nat, max: nat, wantsStop: Consumer)
    requires raws == [v.rest] + later && m < |later| && |v.rest| <= max
    requires !v.stopped && w == View(v.lines + [StripCr(v.rest)], [], false, v.overflows) && !wantsStop(w.lines)
    requires Reaches(w.lines, later, m, max, wantsStop) && Ends(w.lines, later, m, max, wantsStop)
    ensures Reaches(v.lines, raws, m + 1, max, wantsStop) && Ends(v.lines, raws, m + 1, max, wantsStop)
    ensures At(w, later, m, max, wantsStop) == At(v, raws, m + 1, max, wantsStop)
  {
    forall j | 0 <= j <= m ensures v.lines + Stripped(raws[..j + 1]) == w.lines + Stripped(later[..j]) {
      assert raws[..j + 1] == [v.rest] + later[..j];
      StrippedCons(v.lines, v.rest, later[..j]);
    }
    assert w.lines + Stripped(later[..0]) == w.lines;
    forall j | 0 < j < m + 1 ensures !wantsStop(v.lines + Stripped(raws[..j])) {
      assert v.lines + Stripped(raws[..j - 1 + 1]) == w.lines + Stripped(later[..j - 1]);
    }
  }

  /** One k fits. */
  lemma CutUnique(lines: seq<Bytes>, raws: seq<Bytes>, k: nat, m: nat, max: nat, wantsStop: Consumer)
    requires k < |raws| && m < |raws|
    requires Reaches(lines, raws, k, max, wantsStop) && Ends(lines, raws, k, max, wantsStop)
    requires Reaches(lines, raws, m, max, wantsStop) && Ends(lines, raws, m, max, wantsStop)
    ensures k == m
  {
  }

  /** The chunks that were read. */
  function Heard(chunks: seq<Bytes>, stopAfter: nat): Bytes {
    Concat(if stopAfter <= |chunks| then chunks[..stopAfter] else chunks)
  }

  /** What a session that read up to piece k ends with, stopped between chunks or at the end of the stream. */
  lemma SessionEnds(raws: seq<Bytes>, k: nat, max: nat, wantsStop: Consumer)
    requires k < |raws|
    ensures var told := k > 0 && wantsStop(Stripped(raws[..k]));
            var v, w := Stopped(At(START, raws, k, max, wantsStop)), Finish(At(START, raws, k, max, wantsStop));
            var tail := if !told && |raws[k]| <= max && raws[k] != [] then [raws[k]] else [];
            && v.lines == Stripped(raws[..k]) + Stripped([]) && w.lines == Stripped(raws[..k]) + Stripped(tail)
            && v.overflows == w.overflows == (if !told && |raws[k]| > max then 1 else 0)
            && v.stopped && v.rest == [] && w.stopped && w.rest == []
  {
    var lines := Stripped(raws[..k]);
    assert [] + lines == lines && Stripped([]) == [] && lines + [] == lines;
    assert Stripped([raws[k]]) == [StripCr(raws[k])];
    hide Stripped, StripCr;
  }

  /**
   However the input is chunked, the delivered lines are the pieces of what was read up to the first
   piece that is too long or after which the consumer stops, each without one final carriage return.
   Overflow is reported once, exactly in the first case. An unterminated nonempty last piece is
   delivered at the end of the stream, and is dropped if the consumer stops between two chunks.
  */
  lemma ReaderDelivers(chunks: seq<Bytes>, stopAfter: nat, max: nat, wantsStop: Consumer) returns (k: nat)
    ensures k < |Split(Heard(chunks, stopAfter))|
    ensures var raws := Split(Heard(chunks, stopAfter));
            Reaches([], raws, k, max, wantsStop) && Ends([], raws, k, max, wantsStop)
    ensures var raws, v := Split(Heard(chunks, stopAfter)), Session(chunks, stopAfter, max, wantsStop);
            var told := k > 0 && wantsStop(Stripped(raws[..k]));
            var tail := if stopAfter > |chunks| && !told && |raws[k]| <= max && raws[k] != [] then [raws[k]] else [];
            && v.lines == Stripped(raws[..k]) + Stripped(tail)
            && v.overflows == (if !told && |raws[k]| > max then 1 else 0)
            && v.stopped && v.rest == []
  {
    var s := Heard(chunks, stopAfter);
    k := FeedCuts(START, s, max, wantsStop);
    assert [] + Split(s)[0] == Split(s)[0];
    assert Joined([], Split(s)) == Split(s);
    hide Feed, Split, At, Finish, Stopped, Stripped, Reaches, Ends;
    SessionEnds(Split(s), k, max, wantsStop);
  }

  /** For a consumer that never stops from onLine, overflow happens exactly when some line is too long, and only once. */
  lemma OverflowExactly(chunks: seq<Bytes>, stopAfter: nat, max: nat, wantsStop: Consumer)
    requires forall lines :: !wantsStop(lines)
    ensures var raws := Split(Heard(chunks, stopAfter));
            Session(chunks, stopAfter, max, wantsStop).overflows ==
            if exists i :: 0 <= i < |raws| && |raws[i]| > max then 1 else 0
  {
    hide Session, Split, Heard, Stripped;
    var k := ReaderDelivers(chunks, stopAfter, max, wantsStop);
    var raws := Split(Heard(chunks, stopAfter));
    assert forall j :: 0 <= j < k ==> |raws[j]| <= max;
    if |raws[k]| <= max {
      assert k == |raws| - 1;
    }
  }

  // ---- Split is splitting -------------------------------------------------------------------------------------

  function Joining(raws: seq<Bytes>): Bytes
    requires raws != []
  {
    if |raws| == 1 then raws[0] else raws[0] + [LF] + Joining(raws[1..])
  }

  /** The pieces hold no newline and give the input back. */
  lemma {:induction false} SplitExact(s: Bytes)
    ensures Joining(Split(s)) == s
    ensures forall i :: 0 <= i < |Split(s)| ==> LF !in Split(s)[i]
  {
    if s != [] {
      SplitExact(s[1..]);
      var t := Split(s[1..]);
      assert s == [s[0]] + s[1..];
      if s[0] == LF {
        assert ([[]] + t)[1..] == t;
        assert [] + [LF] + Joining(t) == [LF] + Joining(t);
      } else {
        var u := [[s[0]] + t[0]] + t[1..];
        assert u[1..] == t[1..];
        if |t| > 1 { assert [s[0]] + t[0] + [LF] + Joining(t[1..]) == [s[0]] + (t[0] + [LF] + Joining(t[1..])); }
      }
    }
  }
}
