/**
 When a second upsert absorbs the first, as a condition on the file the first one was given. A carriage
 return that ends a surviving line becomes half of a CRLF in the new file, unless that line is the last
 one with text, whose end is trimmed; the second upsert then reads the CRLF as a plain line end. The
 proofs carry that condition backwards through squeezing, trimming, stripping and pinning to the
 positions of the file's own lines.
*/
module CodexReturns {
  import opened Prelude
  import opened Text
  import opened Lines
  import opened CodexConfig
  import opened CodexLineFacts
  import opened CodexConfigLaws
  import opened CodexTables

  // ---- carriage returns above text --------------------------------------------------------------------

  predicate EndsCr(l: string) { l != [] && l[|l| - 1] == '\r' }

  predicate HasText(ls: seq<string>) { ls != [] && (!Blank(ls[0]) || HasText(ls[1..])) }

  predicate AnyCr(ls: seq<string>) { ls != [] && (EndsCr(ls[0]) || AnyCr(ls[1..])) }

  /** Some line ends in a carriage return and a later one has text. */
  predicate CrAboveText(ls: seq<string>) {
    ls != [] && ((EndsCr(ls[0]) && HasText(ls[1..])) || CrAboveText(ls[1..]))
  }

  lemma Cons(l: string, ls: seq<string>)
    ensures HasText([l] + ls) <==> !Blank(l) || HasText(ls)
    ensures AnyCr([l] + ls) <==> EndsCr(l) || AnyCr(ls)
    ensures CrAboveText([l] + ls) <==> (EndsCr(l) && HasText(ls)) || CrAboveText(ls)
  {
    assert ([l] + ls)[1..] == ls;
  }

  lemma {:induction false} Concat(a: seq<string>, b: seq<string>)
    ensures HasText(a + b) <==> HasText(a) || HasText(b)
    ensures AnyCr(a + b) <==> AnyCr(a) || AnyCr(b)
    ensures CrAboveText(a + b) <==> CrAboveText(a) || (AnyCr(a) && HasText(b)) || CrAboveText(b)
  {
    if a == [] {
      assert a + b == b;
    } else {
      Concat(a[1..], b);
      assert (a + b)[1..] == a[1..] + b;
    }
  }

  lemma {:induction false} NoText(ls: seq<string>)
    requires forall i :: 0 <= i < |ls| ==> Blank(ls[i])
    ensures !HasText(ls) && !CrAboveText(ls)
  {
    if ls != [] { NoText(ls[1..]); }
  }

  lemma {:induction false} NoReturns(ls: seq<string>)
    requires forall i :: 0 <= i < |ls| ==> !EndsCr(ls[i])
    ensures !AnyCr(ls) && !CrAboveText(ls)
  {
    if ls != [] { NoReturns(ls[1..]); }
  }

  lemma {:induction false} AboveIsAny(ls: seq<string>)
    ensures CrAboveText(ls) ==> AnyCr(ls)
  {
    if ls != [] { AboveIsAny(ls[1..]); }
  }

  lemma LastOne(l: string)
    ensures HasText([l]) == !Blank(l) && AnyCr([l]) == EndsCr(l) && !CrAboveText([l])
  {
    assert [l][1..] == [];
  }

  lemma {:induction false} SqueezeReturns(ls: seq<string>, run: nat)
    ensures HasText(SqueezeLines(ls, run)) == HasText(ls)
    ensures CrAboveText(SqueezeLines(ls, run)) == CrAboveText(ls)
  {
    if |ls| > 1 {
      var next := if ls[0] == [] then run + 1 else 1;
      SqueezeReturns(ls[1..], next);
      var s := SqueezeLines(ls[1..], next);
      Cons(ls[0], s);
      assert [] + s == s;
    }
  }

  lemma TrimmedEnd(l: string)
    ensures !EndsCr(TrimEnd(l)) && Blank(TrimEnd(l)) == Blank(l)
  {
    TrimEndTwice(l);
    var n := TrimEndPart(l);
    if n > 0 { assert TrimEnd(l)[n - 1] == l[n - 1]; }
  }

  /** Trimming a list of lines only touches what has no text below it. */
  lemma TrimReturns(ls: seq<string>)
    requires ls != []
    ensures CrAboveText(TrimLines(ls)) == CrAboveText(ls)
  {
    var k := TrimLinesParts(ls);
    var front, last, rest := ls[..k], ls[k], ls[k + 1..];
    assert ls == front + ([last] + rest);
    NoText(rest);
    TrimmedEnd(last);
    LastOne(last);
    LastOne(TrimEnd(last));
    Concat([last], rest);
    Concat(front, [last] + rest);
    Concat(front, [TrimEnd(last)]);
  }

  lemma OrReturns(ls: seq<string>)
    ensures CrAboveText(Or(ls)) == CrAboveText(ls)
  {
    LastOne([]);
  }

  // ---- the text and its lines ----------------------------------------------------------------------------

  lemma CrLfPair(l: string, t: string)
    requires OneLine(l)
    ensures HasCrLf(l + "\n" + t) <==> EndsCr(l) || HasCrLf(t)
  {
    var u := l + "\n" + t;
    var n := |l|;
    if EndsCr(l) { assert u[n - 1] == '\r' && u[n - 1 + 1] == '\n'; }
    if i :| 0 <= i < |t| - 1 && t[i] == '\r' && t[i + 1] == '\n' {
      assert u[n + 1 + i] == '\r' && u[n + 1 + i + 1] == '\n';
    }
    if i :| 0 <= i < |u| - 1 && u[i] == '\r' && u[i + 1] == '\n' {
      assert forall k :: 0 <= k < n ==> u[k] != '\n';
      if i + 1 == n {
        assert l[n - 1] == u[i];
      } else {
        assert i > n && t[i - n - 1] == '\r' && t[i - n - 1 + 1] == '\n';
      }
    }
  }

  lemma {:induction false} CrLfJoin(ls: seq<string>)
    requires ls != [] && AllLines(ls)
    ensures HasCrLf(Join(ls + [[]])) <==> AnyCr(ls)
  {
    var all := ls + [[]];
    assert all[0] == ls[0] && all[1..] == ls[1..] + [[]];
    CrLfPair(ls[0], Join(all[1..]));
    if |ls| > 1 {
      CrLfJoin(ls[1..]);
    } else {
      assert all[1..] == [[]] && Join([[]]) == [];
      assert ls[1..] == [];
    }
  }

  lemma BlockEnds(block: seq<string>)
    requires AllNoBreaks(block)
    ensures !AnyCr(block) && AllLines(block)
  {
    forall i | 0 <= i < |block| ensures !EndsCr(block[i]) && OneLine(block[i]) { assert NoBreaks(block[i]); }
    NoReturns(block);
  }

  lemma TidyReturns(b: seq<string>)
    requires Tidy(b)
    ensures AnyCr(b) == CrAboveText(b)
  {
    var n := |b| - 1;
    assert b == b[..n] + [b[n]];
    TrimmedEnd(b[n]);
    LastOne(b[n]);
    AboveIsAny(b[..n]);
    Concat(b[..n], [b[n]]);
  }

  /** A CRLF is left in the upserted text exactly if its body has a carriage return above text. */
  lemma CrLfLeft(x: string, o: Options)
    requires NoBreaksIn(o)
    ensures HasCrLf(Upserted(x, o)) <==> CrAboveText(Body(x, o.serverName))
  {
    var b, block := Body(x, o.serverName), BlockLines(o);
    UpsertedLines(x, o);
    BodyOneLine(x, o.serverName);
    BodyShape(x, o.serverName);
    BlockNoBreaks(o);
    hide Body, BlockLines, Upserted, Tight;
    BlockEnds(block);
    TidyReturns(b);
    LastOne([]);
    Concat([[]], block);
    Concat(b, [[]] + block);
    CrLfJoin(b + ([[]] + block));
  }

  // ---- stripping ------------------------------------------------------------------------------------------

  /** What the strip pass remembers after the lines. */
  function RemovingAfter(lines: seq<string>, target: string, removing: bool): bool {
    if lines == [] then removing
    else RemovingAfter(lines[1..], target, if HeaderName(lines[0]).Some? then OwnHeader(lines[0], target) else removing)
  }

  lemma {:induction false} KeptConcat(a: seq<string>, b: seq<string>, target: string, removing: bool)
    ensures Kept(a + b, target, removing) == Kept(a, target, removing) + Kept(b, target, RemovingAfter(a, target, removing))
  {
    hide HeaderName, OwnHeader;
    if a == [] {
      assert a + b == b;
    } else {
      assert (a + b)[1..] == a[1..] + b;
      KeptConcat(a[1..], b, target, true);
      KeptConcat(a[1..], b, target, false);
    }
  }

  lemma KeptBlank(ls: seq<string>, target: string, removing: bool)
    requires forall i :: 0 <= i < |ls| ==> Blank(ls[i])
    ensures !HasText(Kept(ls, target, removing)) && !CrAboveText(Kept(ls, target, removing))
  {
    var k := Kept(ls, target, removing);
    forall i | 0 <= i < |k| ensures Blank(k[i]) { assert k[i] in ls; }
    NoText(k);
  }

  lemma KeptOne(l: string, target: string, removing: bool)
    ensures Kept([l], target, removing) ==
            if (if HeaderName(l).Some? then OwnHeader(l, target) else removing) then [] else [l]
  {
    assert [l][1..] == [];
  }

  /** Trimming before the strip pass changes nothing that counts. */
  lemma TrimThenStrip(p: seq<string>, target: string)
    requires p != []
    ensures CrAboveText(Kept(TrimLines(p) + [[]], target, false)) == CrAboveText(Kept(p, target, false))
  {
    var k := TrimLinesParts(p);
    var front, last, rest := p[..k], p[k], p[k + 1..];
    assert p == front + ([last] + rest);
    assert TrimLines(p) + [[]] == front + ([TrimEnd(last)] + [[]]);
    forall i | 0 <= i < |rest| ensures Blank(rest[i]) { assert rest[i] == p[k + 1 + i]; }
    var e := RemovingAfter(front, target, false);
    hide TrimLines, TrimEnd, Blank, HasText, AnyCr, CrAboveText, Kept, RemovingAfter;
    SameEnd(last, rest, target, e);
    FrontThen(front, [last] + rest, target, e);
    FrontThen(front, [TrimEnd(last)] + [[]], target, e);
  }

  lemma FrontThen(front: seq<string>, tail: seq<string>, target: string, e: bool)
    requires e == RemovingAfter(front, target, false)
    ensures var a, b := Kept(front, target, false), Kept(tail, target, e);
            CrAboveText(Kept(front + tail, target, false)) <==> CrAboveText(a) || (AnyCr(a) && HasText(b)) || CrAboveText(b)
  {
    KeptConcat(front, tail, target, false);
    Concat(Kept(front, target, false), Kept(tail, target, e));
  }

  /** A line and blank lines after it. */
  lemma LineThenBlank(last: string, rest: seq<string>, target: string, e: bool)
    requires forall i :: 0 <= i < |rest| ==> Blank(rest[i])
    ensures var a := Kept([last] + rest, target, e);
            HasText(a) == HasText(Kept([last], target, e)) && !CrAboveText(a)
  {
    var f := RemovingAfter([last], target, e);
    KeptConcat([last], rest, target, e);
    KeptBlank(rest, target, f);
    KeptOne(last, target, e);
    LastOne(last);
    hide HeaderName, OwnHeader, Kept, RemovingAfter, Blank;
    NoText([]);
    Concat(Kept([last], target, e), Kept(rest, target, f));
  }

  lemma SameEnd(last: string, rest: seq<string>, target: string, e: bool)
    requires forall i :: 0 <= i < |rest| ==> Blank(rest[i])
    ensures var a, b := Kept([last] + rest, target, e), Kept([TrimEnd(last)] + [[]], target, e);
            HasText(a) == HasText(b) && !CrAboveText(a) && !CrAboveText(b)
  {
    HeaderTrimmed(last);
    TrimmedEnd(last);
    LineThenBlank(last, rest, target, e);
    LineThenBlank(TrimEnd(last), [[]], target, e);
    KeptOne(last, target, e);
    KeptOne(TrimEnd(last), target, e);
    LastOne(last);
    LastOne(TrimEnd(last));
    hide HeaderName, TrimEnd, Kept, Blank, CrAboveText;
  }

  /** The body has a carriage return above text exactly if the pinned and stripped lines have. */
  lemma BodyReturns(x: string, serverName: string)
    ensures CrAboveText(Body(x, serverName)) ==
            CrAboveText(Kept(Pinned(Split(CrlfToLf(x))), Target(serverName), false))
  {
    var p, target := Pinned(Split(CrlfToLf(x))), Target(serverName);
    PinnedBound(Split(CrlfToLf(x)));
    hide Pinned;
    TrimThenStrip(p, target);
    var kept := Kept(TrimLines(p) + [[]], target, false);
    SqueezeReturns(Or(kept), 0);
    OrReturns(kept);
    TrimReturns(SqueezeLines(Or(kept), 0));
  }

  // ---- the condition on the file ----------------------------------------------------------------------------

  /** The line survives the upsert: no top-level credential line, and in no table of ours. */
  predicate Stays(lines: seq<string>, target: string, i: nat)
    requires i < |lines|
  {
    !(i < FirstTable(lines) && CredentialLine(lines[i])) && !Ours(lines, target, false, i)
  }

  /** A surviving line that ends in a carriage return. */
  predicate StaysCr(lines: seq<string>, target: string, i: nat)
    requires i < |lines|
  {
    EndsCr(lines[i]) && Stays(lines, target, i)
  }

  /** Text comes after the line in the result: a surviving line, or the credential line that is put below it. */
  ghost predicate TextBelow(lines: seq<string>, target: string, i: nat)
    requires i < |lines|
  {
    || (exists j :: i < j < |lines| && Stays(lines, target, j) && !Blank(lines[j]))
    || (i < FirstTable(lines) && forall c :: 0 <= c < i ==> !CredentialLine(lines[c]))
  }

  /** A surviving line with text below it ends in a carriage return. */
  ghost predicate ReturnSurvives(lines: seq<string>, target: string) {
    exists i :: 0 <= i < |lines| && StaysCr(lines, target, i) && TextBelow(lines, target, i)
  }

  // ---- tables -------------------------------------------------------------------------------------------------

  predicate TextKept(ls: seq<string>, target: string, before: bool, j: nat)
    requires j < |ls|
  {
    !Blank(ls[j]) && !Ours(ls, target, before, j)
  }

  predicate CrKept(ls: seq<string>, target: string, before: bool, i: nat)
    requires i < |ls|
  {
    EndsCr(ls[i]) && !Ours(ls, target, before, i)
  }

  ghost predicate SomeText(ls: seq<string>, target: string, before: bool, from: nat) {
    exists j :: from <= j < |ls| && TextKept(ls, target, before, j)
  }

  ghost predicate SomeCr(ls: seq<string>, target: string, before: bool) {
    exists i :: 0 <= i < |ls| && CrKept(ls, target, before, i) && SomeText(ls, target, before, i + 1)
  }

  lemma KeptCons(ls: seq<string>, target: string, before: bool)
    requires ls != []
    ensures var flag := Ours(ls, target, before, 0);
            Kept(ls, target, before) == (if flag then [] else [ls[0]]) + Kept(ls[1..], target, flag)
  {
  }

  lemma SomeTextStep(ls: seq<string>, target: string, before: bool, from: nat)
    requires ls != []
    ensures var flag := Ours(ls, target, before, 0);
      && (from == 0 ==> (SomeText(ls, target, before, 0) <==> (!flag && !Blank(ls[0])) || SomeText(ls[1..], target, flag, 0)))
      && (from > 0 ==> (SomeText(ls, target, before, from) <==> SomeText(ls[1..], target, flag, from - 1)))
  {
    hide Ours, Blank;
    var flag, rest := Ours(ls, target, before, 0), ls[1..];
    forall j | 0 <= j < |rest| ensures TextKept(rest, target, flag, j) == TextKept(ls, target, before, j + 1) {
      OursShift(ls, target, before, j);
    }
    if j :| from <= j < |ls| && TextKept(ls, target, before, j) {
      if j > 0 { assert TextKept(rest, target, flag, j - 1); }
    }
    if j :| (if from > 0 then from - 1 else 0) <= j < |rest| && TextKept(rest, target, flag, j) {
      assert TextKept(ls, target, before, j + 1);
    }
    assert TextKept(ls, target, before, 0) <==> !flag && !Blank(ls[0]);
  }

  lemma SomeCrStep(ls: seq<string>, target: string, before: bool)
    requires ls != []
    ensures var flag := Ours(ls, target, before, 0);
            SomeCr(ls, target, before) <==>
              (!flag && EndsCr(ls[0]) && SomeText(ls[1..], target, flag, 0)) || SomeCr(ls[1..], target, flag)
  {
    hide Ours, SomeText, EndsCr;
    var flag, rest := Ours(ls, target, before, 0), ls[1..];
    SomeTextStep(ls, target, before, 1);
    forall i | 0 <= i < |rest|
      ensures CrKept(rest, target, flag, i) == CrKept(ls, target, before, i + 1)
      ensures SomeText(rest, target, flag, i + 1) == SomeText(ls, target, before, i + 2)
    {
      OursShift(ls, target, before, i);
      SomeTextStep(ls, target, before, i + 2);
    }
    if i :| 0 <= i < |ls| && CrKept(ls, target, before, i) && SomeText(ls, target, before, i + 1) {
      if i > 0 { assert CrKept(rest, target, flag, i - 1) && SomeText(rest, target, flag, i - 1 + 1); }
    }
    if i :| 0 <= i < |rest| && CrKept(rest, target, flag, i) && SomeText(rest, target, flag, i + 1) {
      assert CrKept(ls, target, before, i + 1) && SomeText(ls, target, before, i + 1 + 1);
    }
    assert CrKept(ls, target, before, 0) <==> !flag && EndsCr(ls[0]);
  }

  /** The strip pass, in terms of positions. */
  lemma {:induction false} KeptReturns(ls: seq<string>, target: string, before: bool)
    ensures HasText(Kept(ls, target, before)) <==> SomeText(ls, target, before, 0)
    ensures CrAboveText(Kept(ls, target, before)) <==> SomeCr(ls, target, before)
  {
    if ls != [] {
      var flag := Ours(ls, target, before, 0);
      KeptReturns(ls[1..], target, flag);
      KeptCons(ls, target, before);
      SomeTextStep(ls, target, before, 0);
      SomeCrStep(ls, target, before);
      hide Ours, SomeText, SomeCr, Kept, EndsCr, Blank;
      var k := Kept(ls[1..], target, flag);
      Cons(ls[0], k);
      assert [] + k == k;
    }
  }

  // ---- above the first table -------------------------------------------------------------------------------------

  predicate TopText(top: seq<string>, j: nat)
    requires j < |top|
  {
    !Blank(top[j]) && !CredentialLine(top[j])
  }

  ghost predicate TextInTop(top: seq<string>, from: nat) {
    exists j :: from <= j < |top| && TopText(top, j)
  }

  predicate NoneBefore(top: seq<string>, i: nat)
    requires i <= |top|
  {
    forall c :: 0 <= c < i ==> !CredentialLine(top[c])
  }

  predicate TopCr(top: seq<string>, i: nat)
    requires i < |top|
  {
    EndsCr(top[i]) && !CredentialLine(top[i])
  }

  /** A carriage return in front of the first table with text below it, when `more` says there is text after the top. */
  ghost predicate CrInTop(top: seq<string>, pinned: bool, more: bool) {
    exists i :: 0 <= i < |top| && TopCr(top, i) && (more || TextInTop(top, i + 1) || (pinned && NoneBefore(top, i)))
  }

  lemma TextInTopStep(top: seq<string>, from: nat)
    requires top != []
    ensures from == 0 ==> (TextInTop(top, 0) <==> TopText(top, 0) || TextInTop(top[1..], 0))
    ensures from > 0 ==> (TextInTop(top, from) <==> TextInTop(top[1..], from - 1))
  {
    hide Blank, CredentialLine;
    var rest := top[1..];
    forall j | 0 <= j < |rest| ensures TopText(rest, j) == TopText(top, j + 1) {}
    if j :| from <= j < |top| && TopText(top, j) {
      if j > 0 { assert TopText(rest, j - 1); }
    }
    if j :| (if from > 0 then from - 1 else 0) <= j < |rest| && TopText(rest, j) { assert TopText(top, j + 1); }
  }

  lemma NoneBeforeStep(top: seq<string>, i: nat)
    requires top != [] && 0 < i <= |top|
    ensures NoneBefore(top, i) <==> !CredentialLine(top[0]) && NoneBefore(top[1..], i - 1)
  {
    if !CredentialLine(top[0]) && NoneBefore(top[1..], i - 1) {
      forall c | 0 <= c < i ensures !CredentialLine(top[c]) { if c > 0 { assert top[1..][c - 1] == top[c]; } }
    }
    if NoneBefore(top, i) {
      forall c | 0 <= c < i - 1 ensures !CredentialLine(top[1..][c]) { assert top[1..][c] == top[c + 1]; }
    }
  }

  lemma CrInTopStep(top: seq<string>, pinned: bool, more: bool)
    requires top != []
    ensures CrInTop(top, pinned, more) <==>
              (TopCr(top, 0) && (more || TextInTop(top[1..], 0) || pinned))
              || CrInTop(top[1..], pinned && !CredentialLine(top[0]), more)
  {
    hide EndsCr, CredentialLine, TextInTop, NoneBefore;
    var rest, left := top[1..], pinned && !CredentialLine(top[0]);
    NoneAtStart(top);
    TextInTopStep(top, 1);
    forall i | 0 <= i < |rest|
      ensures TopCr(rest, i) == TopCr(top, i + 1)
      ensures TextInTop(rest, i + 1) == TextInTop(top, i + 2)
      ensures (pinned && NoneBefore(top, i + 1)) == (left && NoneBefore(rest, i))
    {
      TextInTopStep(top, i + 2);
      NoneBeforeStep(top, i + 1);
    }
    if i :| 0 <= i < |top| && TopCr(top, i) && (more || TextInTop(top, i + 1) || (pinned && NoneBefore(top, i))) {
      if i > 0 {
        assert TopCr(rest, i - 1) && (more || TextInTop(rest, i - 1 + 1) || (left && NoneBefore(rest, i - 1)));
      }
    }
    if i :| 0 <= i < |rest| && TopCr(rest, i) && (more || TextInTop(rest, i + 1) || (left && NoneBefore(rest, i))) {
      assert TopCr(top, i + 1) && (more || TextInTop(top, i + 1 + 1) || (pinned && NoneBefore(top, i + 1)));
    }
  }

  lemma NoneAtStart(top: seq<string>)
    ensures NoneBefore(top, 0)
  {
  }

  lemma FileCredentialReturns()
    ensures !EndsCr(FILE_CREDENTIAL_STORE) && !Blank(FILE_CREDENTIAL_STORE)
  {
    FileCredentialLine();
    TrimmedEnd(FILE_CREDENTIAL_STORE);
    FileCredentialTrimmed();
  }

  lemma HasCredentialStep(top: seq<string>)
    requires top != []
    ensures HasCredential(top) <==> CredentialLine(top[0]) || HasCredential(top[1..])
  {
    hide CredentialLine;
    if i :| 0 <= i < |top[1..]| && CredentialLine(top[1..][i]) { assert top[i + 1] == top[1..][i]; }
    if i :| 0 <= i < |top| && CredentialLine(top[i]) { if i > 0 { assert top[1..][i - 1] == top[i]; } }
  }

  /** Replacing credential lines above the table part `k`. */
  lemma {:induction false} ReplacedReturns(top: seq<string>, seen: bool, k: seq<string>)
    ensures HasText(Replaced(top, seen) + k) <==> TextInTop(top, 0) || (!seen && HasCredential(top)) || HasText(k)
    ensures CrAboveText(Replaced(top, seen) + k) <==>
              CrInTop(top, !seen && HasCredential(top), HasText(k)) || CrAboveText(k)
  {
    if top == [] {
      assert Replaced(top, seen) + k == k;
    } else {
      FileCredentialReturns();
      var cred := CredentialLine(top[0]);
      ReplacedReturns(top[1..], seen || cred, k);
      ReplacedHead(top, k, seen, Replaced(top[1..], seen || cred) + k);
      TextInTopStep(top, 0);
      HasCredentialStep(top);
      CrInTopStep(top, !seen && HasCredential(top), HasText(k));
      var r := Replaced(top[1..], seen || cred) + k;
      hide Replaced, CredentialLine, EndsCr, Blank, CrInTop, TextInTop, HasCredential;
      Cons(top[0], r);
      Cons(FILE_CREDENTIAL_STORE, r);
    }
  }

  lemma {:induction false} AnyCrMeans(ls: seq<string>)
    ensures AnyCr(ls) <==> exists i :: 0 <= i < |ls| && EndsCr(ls[i])
  {
    hide EndsCr;
    if ls != [] {
      AnyCrMeans(ls[1..]);
      if i :| 0 <= i < |ls[1..]| && EndsCr(ls[1..][i]) { assert EndsCr(ls[i + 1]); }
      if i :| 0 <= i < |ls| && EndsCr(ls[i]) { if i > 0 { assert EndsCr(ls[1..][i - 1]); } }
    }
  }

  /** Appending the credential line above the table part `k`. */
  lemma AppendedReturns(top: seq<string>, gap: seq<string>, k: seq<string>)
    requires !HasCredential(top) && forall i :: 0 <= i < |gap| ==> gap[i] == []
    ensures CrAboveText(DropEmptyEnd(top) + [FILE_CREDENTIAL_STORE] + gap + k) <==>
              CrInTop(top, true, HasText(k)) || CrAboveText(k)
  {
    var n := DropEmptyEndPart(top);
    var front := top[..n];
    assert DropEmptyEnd(top) + [FILE_CREDENTIAL_STORE] + gap + k == front + ([FILE_CREDENTIAL_STORE] + (gap + k));
    FileCredentialReturns();
    NoReturns(gap);
    NoText(gap);
    Concat(gap, k);
    Cons(FILE_CREDENTIAL_STORE, gap + k);
    Concat(front, [FILE_CREDENTIAL_STORE] + (gap + k));
    AboveIsAny(front);
    AnyCrMeans(front);
    assert forall i :: 0 <= i < |top| ==> !CredentialLine(top[i]);
    hide CredentialLine;
    if AnyCr(front) {
      var i :| 0 <= i < |front| && EndsCr(front[i]);
      assert TopCr(top, i) && NoneBefore(top, i);
    }
    if CrInTop(top, true, HasText(k)) {
      var i :| 0 <= i < |top| && TopCr(top, i);
      assert i < n && front[i] == top[i];
    }
  }

  lemma TopUntouched(top: seq<string>, rest: seq<string>, target: string)
    requires NoOwnHeader(top, target)
    ensures Kept(top + rest, target, false) == top + Kept(rest, target, false)
  {
    KeptAll(top, rest, target);
  }

  lemma TopHasNoOwn(top: seq<string>, target: string)
    requires Top(top)
    ensures NoOwnHeader(top, target)
  {
    forall i | 0 <= i < |top| ensures !OwnHeader(top[i], target) { OwnIsHeader(top[i], target); }
  }

  lemma {:induction false} ReplacedHasNoOwn(top: seq<string>, seen: bool, target: string)
    requires NoOwnHeader(top, target)
    ensures NoOwnHeader(Replaced(top, seen), target)
  {
    if top != [] {
      FileCredentialLine();
      assert !OwnHeader(FILE_CREDENTIAL_STORE, target);
      hide CredentialLine, OwnHeader, HeaderName;
      ReplacedHasNoOwn(top[1..], true, target);
      ReplacedHasNoOwn(top[1..], seen, target);
    }
  }

  /** The pinned lines, in terms of the file: the part above the first table and the part from there on. */
  lemma PinnedReturns(lines: seq<string>, target: string)
    ensures var top, rest := lines[..FirstTable(lines)], lines[FirstTable(lines)..];
            CrAboveText(Kept(Pinned(lines), target, false)) <==>
              CrInTop(top, true, SomeText(rest, target, false, 0)) || SomeCr(rest, target, false)
  {
    var top, rest := lines[..FirstTable(lines)], lines[FirstTable(lines)..];
    FirstTableSplits(lines);
    TopHasNoOwn(top, target);
    KeptReturns(rest, target, false);
    var k := Kept(rest, target, false);
    hide Kept, SomeText, SomeCr, CrInTop, Top;
    if HasCredential(top) {
      ReplacedHasNoOwn(top, false, target);
      TopUntouched(Replaced(top, false), rest, target);
      ReplacedReturns(top, false, k);
    } else {
      PinnedAppended(lines, target);
    }
  }

  lemma PinnedAppended(lines: seq<string>, target: string)
    requires NoOwnHeader(lines[..FirstTable(lines)], target) && !HasCredential(lines[..FirstTable(lines)])
    ensures var top, k := lines[..FirstTable(lines)], Kept(lines[FirstTable(lines)..], target, false);
            CrAboveText(Kept(Pinned(lines), target, false)) <==> CrInTop(top, true, HasText(k)) || CrAboveText(k)
  {
    var top, rest := lines[..FirstTable(lines)], lines[FirstTable(lines)..];
    var gap: seq<string> := if FirstTable(lines) < |lines| then [[]] else [];
    var head := DropEmptyEnd(top) + [FILE_CREDENTIAL_STORE] + gap;
    assert Pinned(lines) == head + rest;
    AppendedHasNoOwn(top, gap, target);
    hide Pinned, OwnHeader, HeaderName, Kept, CrInTop, TableLine, NoOwnHeader, CrAboveText, HasText;
    TopUntouched(head, rest, target);
    AppendedReturns(top, gap, Kept(rest, target, false));
  }

  lemma AppendedHasNoOwn(top: seq<string>, gap: seq<string>, target: string)
    requires NoOwnHeader(top, target) && forall i :: 0 <= i < |gap| ==> gap[i] == []
    ensures NoOwnHeader(DropEmptyEnd(top) + [FILE_CREDENTIAL_STORE] + gap, target)
  {
    var n := DropEmptyEndPart(top);
    FileCredentialLine();
    EmptyLine();
    assert !OwnHeader(FILE_CREDENTIAL_STORE, target) && !OwnHeader([], target);
    hide OwnHeader, HeaderName;
  }

  // ---- positions of the whole file --------------------------------------------------------------------------------

  lemma {:induction false} OursInTop(lines: seq<string>, target: string, i: nat)
    requires i < FirstTable(lines)
    ensures !Ours(lines, target, false, i)
  {
    FirstTableSplits(lines);
    assert lines[..FirstTable(lines)][i] == lines[i];
    OwnIsHeader(lines[i], target);
    if i > 0 { OursInTop(lines, target, i - 1); }
  }

  lemma {:induction false} OursInRest(lines: seq<string>, target: string, i: nat)
    requires FirstTable(lines) <= i < |lines|
    ensures Ours(lines, target, false, i) == Ours(lines[FirstTable(lines)..], target, false, i - FirstTable(lines))
  {
    hide HeaderName, OwnHeader, TableLine, FirstTable;
    var k := FirstTable(lines);
    assert lines[k..][i - k] == lines[i];
    if i > k {
      OursInRest(lines, target, i - 1);
    } else if i > 0 {
      OursInTop(lines, target, i - 1);
    }
  }

  lemma PositionsSplit(lines: seq<string>, target: string, i: nat)
    requires i < |lines|
    ensures var k := FirstTable(lines);
            if i < k then Stays(lines, target, i) == !CredentialLine(lines[..k][i]) && lines[..k][i] == lines[i]
            else Stays(lines, target, i) == !Ours(lines[k..], target, false, i - k) && lines[k..][i - k] == lines[i]
  {
    if i < FirstTable(lines) { OursInTop(lines, target, i); } else { OursInRest(lines, target, i); }
  }

  /** A surviving line with text, in its own part of the file. */
  lemma StaysText(lines: seq<string>, target: string, j: nat)
    requires j < |lines|
    ensures var k := FirstTable(lines);
            if j < k then (Stays(lines, target, j) && !Blank(lines[j])) == TopText(lines[..k], j)
            else (Stays(lines, target, j) && !Blank(lines[j])) == TextKept(lines[k..], target, false, j - k)
  {
    hide Stays, CredentialLine, Ours, FirstTable, Blank;
    PositionsSplit(lines, target, j);
  }

  lemma TextBelowTop(lines: seq<string>, target: string, i: nat)
    requires i < FirstTable(lines)
    ensures var k := FirstTable(lines);
            TextBelow(lines, target, i) <==>
              SomeText(lines[k..], target, false, 0) || TextInTop(lines[..k], i + 1) || NoneBefore(lines[..k], i)
  {
    hide FirstTable, Stays, Blank, CredentialLine, TopText, TextKept;
    var k := FirstTable(lines);
    forall j | 0 <= j < |lines|
      ensures j < k ==> ((Stays(lines, target, j) && !Blank(lines[j])) == TopText(lines[..k], j))
      ensures j >= k ==> ((Stays(lines, target, j) && !Blank(lines[j])) == TextKept(lines[k..], target, false, j - k))
    {
      StaysText(lines, target, j);
    }
    if j :| i < j < |lines| && Stays(lines, target, j) && !Blank(lines[j]) {
      if j >= k { assert TextKept(lines[k..], target, false, j - k); } else { assert TopText(lines[..k], j); }
    }
    if j :| 0 <= j < |lines[k..]| && TextKept(lines[k..], target, false, j) {
      assert Stays(lines, target, j + k) && !Blank(lines[j + k]);
    }
    if j :| i + 1 <= j < |lines[..k]| && TopText(lines[..k], j) {
      assert Stays(lines, target, j) && !Blank(lines[j]);
    }
    assert NoneBefore(lines[..k], i) <==> forall c :: 0 <= c < i ==> !CredentialLine(lines[c]) by {
      forall c | 0 <= c < i ensures lines[..k][c] == lines[c] {}
    }
  }

  lemma TextBelowRest(lines: seq<string>, target: string, i: nat)
    requires FirstTable(lines) <= i < |lines|
    ensures var k := FirstTable(lines);
            TextBelow(lines, target, i) <==> SomeText(lines[k..], target, false, i - k + 1)
  {
    hide FirstTable, Stays, Blank, CredentialLine, TextKept;
    var k := FirstTable(lines);
    forall j | k <= j < |lines|
      ensures (Stays(lines, target, j) && !Blank(lines[j])) == TextKept(lines[k..], target, false, j - k)
    {
      StaysText(lines, target, j);
    }
    if j :| i < j < |lines| && Stays(lines, target, j) && !Blank(lines[j]) {
      assert TextKept(lines[k..], target, false, j - k);
    }
    if j :| i - k + 1 <= j < |lines[k..]| && TextKept(lines[k..], target, false, j) {
      assert Stays(lines, target, j + k) && !Blank(lines[j + k]);
    }
  }

  lemma StaysCrAt(lines: seq<string>, target: string, i: nat)
    requires i < |lines|
    ensures var k := FirstTable(lines);
            if i < k then StaysCr(lines, target, i) == TopCr(lines[..k], i)
            else StaysCr(lines, target, i) == CrKept(lines[k..], target, false, i - k)
  {
    hide Stays, CredentialLine, Ours, FirstTable, EndsCr;
    PositionsSplit(lines, target, i);
  }

  lemma ReturnInTop(lines: seq<string>, target: string)
    ensures var k := FirstTable(lines);
            CrInTop(lines[..k], true, SomeText(lines[k..], target, false, 0)) <==>
              exists i :: 0 <= i < k && StaysCr(lines, target, i) && TextBelow(lines, target, i)
  {
    hide FirstTable, StaysCr, TextBelow, TopCr, SomeText, TextInTop, NoneBefore;
    var k := FirstTable(lines);
    var top, more := lines[..k], SomeText(lines[k..], target, false, 0);
    forall i | 0 <= i < k
      ensures StaysCr(lines, target, i) == TopCr(top, i)
      ensures TextBelow(lines, target, i) == (more || TextInTop(top, i + 1) || NoneBefore(top, i))
    {
      StaysCrAt(lines, target, i);
      TextBelowTop(lines, target, i);
    }
    if i :| 0 <= i < k && StaysCr(lines, target, i) && TextBelow(lines, target, i) {
      assert TopCr(top, i) && (more || TextInTop(top, i + 1) || (true && NoneBefore(top, i)));
    }
    if i :| 0 <= i < |top| && TopCr(top, i) && (more || TextInTop(top, i + 1) || (true && NoneBefore(top, i))) {
      assert StaysCr(lines, target, i) && TextBelow(lines, target, i);
    }
  }

  lemma ReturnInRest(lines: seq<string>, target: string)
    ensures var k := FirstTable(lines);
            SomeCr(lines[k..], target, false) <==>
              exists i :: k <= i < |lines| && StaysCr(lines, target, i) && TextBelow(lines, target, i)
  {
    hide FirstTable, StaysCr, TextBelow, CrKept, SomeText;
    var k := FirstTable(lines);
    var rest := lines[k..];
    forall i | k <= i < |lines|
      ensures StaysCr(lines, target, i) == CrKept(rest, target, false, i - k)
      ensures TextBelow(lines, target, i) == SomeText(rest, target, false, i - k + 1)
    {
      StaysCrAt(lines, target, i);
      TextBelowRest(lines, target, i);
    }
    if i :| k <= i < |lines| && StaysCr(lines, target, i) && TextBelow(lines, target, i) {
      assert CrKept(rest, target, false, i - k) && SomeText(rest, target, false, i - k + 1);
    }
    if i :| 0 <= i < |rest| && CrKept(rest, target, false, i) && SomeText(rest, target, false, i + 1) {
      assert StaysCr(lines, target, i + k) && TextBelow(lines, target, i + k);
    }
  }

  lemma ReturnSurvivesSplits(lines: seq<string>, target: string)
    ensures var k := FirstTable(lines);
            ReturnSurvives(lines, target) <==>
              CrInTop(lines[..k], true, SomeText(lines[k..], target, false, 0)) || SomeCr(lines[k..], target, false)
  {
    ReturnInTop(lines, target);
    ReturnInRest(lines, target);
    hide FirstTable, StaysCr, TextBelow, CrInTop, SomeCr, SomeText;
  }

  // ---- the theorem ------------------------------------------------------------------------------------------------

  /**
   A second upsert under the same name absorbs the first exactly if no surviving line of the file, other
   than the last one with text, ends in a carriage return, and the name's printed header is one that the
   strip pass recognises.
  */
  lemma UpsertAbsorbsExactly(x: string, o1: Options, o2: Options)
    requires NoBreaksIn(o1) && o1.serverName == o2.serverName
    ensures Upserted(Upserted(x, o1), o2) == Upserted(x, o2) <==>
            !ReturnSurvives(Split(CrlfToLf(x)), Target(o1.serverName)) && Recognised(o1.serverName)
  {
    var lines, target := Split(CrlfToLf(x)), Target(o1.serverName);
    AbsorbedUnlessCrLf(x, o1, o2);
    CrLfLeft(x, o1);
    BodyReturns(x, o1.serverName);
    PinnedReturns(lines, target);
    ReturnSurvivesSplits(lines, target);
  }
}
