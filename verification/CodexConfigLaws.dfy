/**
 What repeated upserts of config.toml promise, and exactly when they keep the promise. An upsert is cut
 into its body, the lines that survive it, and the fresh block. The proofs follow the two passes line
 by line: exactly one credential line stays in front of the first table, no table of ours is left in
 the body, and a second pass finds nothing to do unless a CRLF or an unrecognised name is in its way.
*/
module CodexConfigLaws {
  import opened Prelude
  import opened Text
  import opened Lines
  import opened CodexConfig
  import opened CodexLineFacts

  // ---- the credential line in front of the first table -------------------------------------------------

  /** Before the first table there is exactly one credential line, ours; seen says it was already met. */
  predicate Bound(lines: seq<string>, seen: bool) {
    if lines == [] || TableLine(lines[0]) then seen
    else if CredentialLine(lines[0]) then !seen && lines[0] == FILE_CREDENTIAL_STORE && Bound(lines[1..], true)
    else Bound(lines[1..], seen)
  }

  /** Every credential line before the first table is dropped. */
  function DropCredential(lines: seq<string>): seq<string> {
    if lines == [] || TableLine(lines[0]) then lines
    else (if CredentialLine(lines[0]) then [] else [lines[0]]) + DropCredential(lines[1..])
  }

  predicate Top(lines: seq<string>) { forall i :: 0 <= i < |lines| ==> !TableLine(lines[i]) }

  lemma {:induction false} FirstTableSplits(lines: seq<string>)
    ensures var k := FirstTable(lines); Top(lines[..k]) && (k < |lines| ==> TableLine(lines[k]))
  {
    hide TableLine;
    if lines != [] && !TableLine(lines[0]) {
      FirstTableSplits(lines[1..]);
      var k := FirstTable(lines[1..]);
      assert lines[..k + 1] == [lines[0]] + lines[1..][..k];
    }
  }

  lemma {:induction false} ReplacedBound(top: seq<string>, rest: seq<string>, replaced: bool)
    requires Top(top) && (rest == [] || TableLine(rest[0])) && (replaced || HasCredential(top))
    ensures Bound(Replaced(top, replaced) + rest, replaced)
    ensures DropCredential(Replaced(top, replaced) + rest) == DropCredential(top + rest)
  {
    hide TableLine, CredentialLine;
    if top == [] {
      assert Replaced(top, replaced) + rest == rest == top + rest;
    } else {
      var cred := CredentialLine(top[0]);
      if !replaced && !cred { CredentialLater(top); }
      ReplacedBound(top[1..], rest, replaced || cred);
      ReplacedMore(top, rest, replaced, Replaced(top[1..], replaced || cred) + rest);
    }
  }

  lemma ReplacedMore(top: seq<string>, rest: seq<string>, replaced: bool, tail: seq<string>)
    requires top != [] && !TableLine(top[0]) && tail == Replaced(top[1..], replaced || CredentialLine(top[0])) + rest
    requires Bound(tail, replaced || CredentialLine(top[0])) && DropCredential(tail) == DropCredential(top[1..] + rest)
    ensures Bound(Replaced(top, replaced) + rest, replaced)
    ensures DropCredential(Replaced(top, replaced) + rest) == DropCredential(top + rest)
  {
    FileCredentialLine();
    hide TableLine, CredentialLine, Replaced, Bound, DropCredential;
    ReplacedHead(top, rest, replaced, tail);
    HeadAssoc(top, rest);
    HeadBound(top[0], top[1..] + rest, replaced);
    HeadBound(top[0], tail, replaced);
    HeadBound(FILE_CREDENTIAL_STORE, tail, replaced);
    assert [] + DropCredential(tail) == DropCredential(tail);
  }

  lemma CredentialLater(top: seq<string>)
    requires HasCredential(top) && !CredentialLine(top[0])
    ensures HasCredential(top[1..])
  {
    var i :| 0 <= i < |top| && CredentialLine(top[i]);
    assert top[1..][i - 1] == top[i];
  }

  /** One more line in front, which starts no table. */
  lemma HeadBound(line: string, tail: seq<string>, seen: bool)
    requires !TableLine(line)
    ensures CredentialLine(line) ==> Bound([line] + tail, seen) == (!seen && line == FILE_CREDENTIAL_STORE && Bound(tail, true))
    ensures !CredentialLine(line) ==> Bound([line] + tail, seen) == Bound(tail, seen)
    ensures DropCredential([line] + tail) == (if CredentialLine(line) then [] else [line]) + DropCredential(tail)
  {
    assert ([line] + tail)[1..] == tail;
  }

  lemma ReplacedHead(top: seq<string>, rest: seq<string>, replaced: bool, tail: seq<string>)
    requires top != [] && tail == Replaced(top[1..], replaced || CredentialLine(top[0])) + rest
    ensures Replaced(top, replaced) + rest ==
            if !CredentialLine(top[0]) then [top[0]] + tail else if replaced then tail else [FILE_CREDENTIAL_STORE] + tail
  {
    hide TableLine, CredentialLine;
    var r := Replaced(top[1..], replaced || CredentialLine(top[0]));
    Assoc([top[0]], r, rest);
    Assoc([FILE_CREDENTIAL_STORE], r, rest);
    assert [] + r == r;
  }

  /** Lines that are neither tables nor credential lines. */
  predicate Plain(lines: seq<string>) {
    forall i :: 0 <= i < |lines| ==> !TableLine(lines[i]) && !CredentialLine(lines[i])
  }

  lemma {:induction false} PlainFront(front: seq<string>, lines: seq<string>, seen: bool)
    requires Plain(front)
    ensures Bound(front + lines, seen) == Bound(lines, seen)
    ensures DropCredential(front + lines) == front + DropCredential(lines)
  {
    if front == [] {
      assert front + lines == lines;
      assert front + DropCredential(lines) == DropCredential(lines);
    } else {
      assert (front + lines)[1..] == front[1..] + lines;
      PlainFront(front[1..], lines, seen);
      assert front + DropCredential(lines) == [front[0]] + (front[1..] + DropCredential(lines));
    }
  }

  lemma {:induction false} DropEmptyEndPart(lines: seq<string>) returns (n: nat)
    ensures n <= |lines| && DropEmptyEnd(lines) == lines[..n] && forall i :: n <= i < |lines| ==> lines[i] == []
    decreases |lines|
  {
    if lines != [] && lines[|lines| - 1] == [] {
      n := DropEmptyEndPart(lines[..|lines| - 1]);
      assert lines[..|lines| - 1][..n] == lines[..n];
      assert forall i :: 0 <= i < |lines| - 1 ==> lines[..|lines| - 1][i] == lines[i];
    } else {
      n := |lines|;
      assert lines[..n] == lines;
    }
  }

  lemma {:induction false} EmptyInsignificant(lines: seq<string>)
    requires forall i :: 0 <= i < |lines| ==> Blank(lines[i])
    ensures Significant(lines) == []
  {
    if lines != [] { EmptyInsignificant(lines[1..]); }
  }

  lemma TopIsPlain(top: seq<string>)
    requires Top(top) && !HasCredential(top)
    ensures Plain(top)
  {
  }

  /** Pinning leaves exactly one credential line on top and loses nothing else but empty lines. */
  lemma PinnedBound(lines: seq<string>)
    requires lines != []
    ensures Pinned(lines) != [] && Bound(Pinned(lines), false)
    ensures Significant(DropCredential(Pinned(lines))) == Significant(DropCredential(lines))
  {
    var k := FirstTable(lines);
    var top, rest := lines[..k], lines[k..];
    FirstTableSplits(lines);
    assert lines == top + rest;
    if HasCredential(top) {
      ReplacedBound(top, rest, false);
    } else {
      AppendedBound(top, rest);
    }
  }

  lemma AppendedBound(top: seq<string>, rest: seq<string>)
    requires Top(top) && !HasCredential(top) && (rest == [] || TableLine(rest[0]))
    ensures var p := DropEmptyEnd(top) + [FILE_CREDENTIAL_STORE] + (if rest != [] then [[]] else []) + rest;
            Bound(p, false) && Significant(DropCredential(p)) == Significant(DropCredential(top + rest))
  {
    hide TableLine, CredentialLine, Significant, Bound;
    var gap: seq<string> := if rest != [] then [[]] else [];
    var n := DropEmptyEndPart(top);
    Grouped(top[..n], [FILE_CREDENTIAL_STORE], gap, rest);
    AppendedTo(top, n, gap, rest);
  }

  lemma AppendedTo(top: seq<string>, n: nat, gap: seq<string>, rest: seq<string>)
    requires Top(top) && !HasCredential(top) && (rest == [] || TableLine(rest[0]))
    requires n <= |top| && (forall i :: n <= i < |top| ==> top[i] == []) && forall i :: 0 <= i < |gap| ==> gap[i] == []
    ensures var p := top[..n] + ([FILE_CREDENTIAL_STORE] + (gap + rest));
            Bound(p, false) && Significant(DropCredential(p)) == Significant(DropCredential(top + rest))
  {
    TopIsPlain(top);
    EmptyLine();
    hide TableLine, CredentialLine, Significant, Bound;
    PlainFront(top, rest, false);
    TableKept(rest);
    AppendedDrop(top[..n], gap, rest);
    AppendedSignificant(top, n, gap, rest);
  }

  lemma TableKept(rest: seq<string>)
    requires rest == [] || TableLine(rest[0])
    ensures DropCredential(rest) == rest
  {
  }

  lemma Grouped<T>(a: seq<T>, b: seq<T>, c: seq<T>, d: seq<T>)
    ensures a + b + c + d == a + (b + (c + d))
  {
  }

  lemma AppendedDrop(front: seq<string>, gap: seq<string>, rest: seq<string>)
    requires Plain(front) && Plain(gap) && (rest == [] || TableLine(rest[0]))
    ensures var p := front + ([FILE_CREDENTIAL_STORE] + (gap + rest));
            Bound(p, false) && DropCredential(p) == front + (gap + rest)
  {
    FileCredentialLine();
    PlainFront(gap, rest, true);
    HeadBound(FILE_CREDENTIAL_STORE, gap + rest, false);
    PlainFront(front, [FILE_CREDENTIAL_STORE] + (gap + rest), false);
    assert DropCredential(rest) == rest;
    assert [] + DropCredential(gap + rest) == gap + rest;
  }

  lemma AppendedSignificant(top: seq<string>, n: nat, gap: seq<string>, rest: seq<string>)
    requires n <= |top| && (forall i :: n <= i < |top| ==> top[i] == []) && forall i :: 0 <= i < |gap| ==> gap[i] == []
    ensures Significant(top[..n] + (gap + rest)) == Significant(top + rest)
  {
    SignificantConcat(top[..n], gap + rest);
    SignificantConcat(gap, rest);
    EmptyInsignificant(gap);
    EmptyInsignificant(top[n..]);
    SignificantConcat(top[..n], top[n..]);
    assert top[..n] + top[n..] == top;
    SignificantConcat(top, rest);
    assert Significant(top[..n]) + [] == Significant(top[..n]);
    assert [] + Significant(rest) == Significant(rest);
  }

  // ---- squeezing and trimming keep the credential line where it is ----------------------------------------

  lemma {:induction false} SqueezeBound(lines: seq<string>, run: nat, seen: bool)
    ensures Bound(SqueezeLines(lines, run), seen) == Bound(lines, seen)
    ensures Significant(DropCredential(SqueezeLines(lines, run))) == Significant(DropCredential(lines))
  {
    if |lines| > 1 {
      if TableLine(lines[0]) {
        EmptyLine();
        SqueezeKeepsSignificant(lines, run);
      } else if lines[0] == [] {
        EmptyLine();
        SqueezeBound(lines[1..], run + 1, seen);
        SqueezeEmptyHead(lines, run);
      } else {
        SqueezeBound(lines[1..], 1, if CredentialLine(lines[0]) then true else seen);
        SqueezeOtherHead(lines, run);
      }
    }
  }

  lemma EmptyDropped(s: seq<string>)
    ensures forall seen :: Bound([[]] + s, seen) == Bound(s, seen)
    ensures Significant(DropCredential([[]] + s)) == Significant(DropCredential(s))
  {
    EmptyLine();
    hide TableLine, CredentialLine, Significant, DropCredential;
    forall seen ensures Bound([[]] + s, seen) == Bound(s, seen) { HeadBound([], s, seen); }
    DropOne([], s);
    EmptyInsignificant([[]]);
    assert [] + Significant(DropCredential(s)) == Significant(DropCredential(s));
  }

  lemma SqueezeEmptyHead(lines: seq<string>, run: nat)
    requires |lines| > 1 && lines[0] == []
    ensures var s := SqueezeLines(lines[1..], run + 1);
            && (forall seen :: Bound(SqueezeLines(lines, run), seen) == Bound(s, seen))
            && Significant(DropCredential(SqueezeLines(lines, run))) == Significant(DropCredential(s))
            && Significant(DropCredential(lines)) == Significant(DropCredential(lines[1..]))
  {
    hide TableLine, CredentialLine, Significant, DropCredential, Bound;
    var s := SqueezeLines(lines[1..], run + 1);
    EmptyDropped(s);
    EmptyDropped(lines[1..]);
    assert lines == [[]] + lines[1..];
    assert [] + s == s;
  }

  lemma SqueezeOtherHead(lines: seq<string>, run: nat)
    requires |lines| > 1 && lines[0] != [] && !TableLine(lines[0])
    requires Significant(DropCredential(SqueezeLines(lines[1..], 1))) == Significant(DropCredential(lines[1..]))
    ensures SqueezeLines(lines, run) == [lines[0]] + SqueezeLines(lines[1..], 1)
    ensures SqueezeLines(lines, run)[1..] == SqueezeLines(lines[1..], 1)
    ensures Significant(DropCredential(SqueezeLines(lines, run))) == Significant(DropCredential(lines))
  {
    var s := SqueezeLines(lines[1..], 1);
    assert ([lines[0]] + s)[1..] == s;
    var front := if CredentialLine(lines[0]) then [] else [lines[0]];
    SignificantConcat(front, DropCredential(s));
    SignificantConcat(front, DropCredential(lines[1..]));
  }

  lemma {:induction false} TrimBound(lines: seq<string>, seen: bool)
    requires lines != [] && Bound(lines, seen)
    ensures Bound(TrimLines(lines), seen)
    decreases |lines|
  {
    var n := |lines| - 1;
    assert lines == lines[..n] + [lines[n]];
    if n > 0 && Blank(lines[n]) {
      DropLastBound(lines[..n], lines[n], seen);
      TrimBound(lines[..n], seen);
    } else {
      LastBound(lines[..n], lines[n], seen);
    }
  }

  lemma {:induction false} DropLastBound(front: seq<string>, last: string, seen: bool)
    requires Bound(front + [last], seen) && Blank(last)
    ensures Bound(front, seen)
  {
    BlankLine(last);
    if front == [] {
      assert front + [last] == [last];
    } else {
      assert (front + [last])[1..] == front[1..] + [last];
      if !TableLine(front[0]) {
        DropLastBound(front[1..], last, if CredentialLine(front[0]) then true else seen);
      }
    }
  }

  lemma {:induction false} LastBound(front: seq<string>, last: string, seen: bool)
    requires Bound(front + [last], seen)
    ensures Bound(front + [TrimEnd(last)], seen)
  {
    var l := TrimEnd(last);
    if front == [] {
      assert front + [last] == [last] && front + [l] == [l];
      assert [last][1..] == [] && [l][1..] == [];
      CredentialTrimmed(last);
      FileCredentialTrimmed();
      if TableLine(last) { TableIsNoCredential(last); }
    } else {
      assert (front + [last])[1..] == front[1..] + [last];
      assert (front + [l])[1..] == front[1..] + [l];
      if !TableLine(front[0]) {
        LastBound(front[1..], last, if CredentialLine(front[0]) then true else seen);
      }
    }
  }

  // ---- stripping our tables keeps it too ----------------------------------------------------------------------

  lemma {:induction false} RemovingStartsAtHeader(lines: seq<string>, target: string)
    ensures var r := Kept(lines, target, true); r == [] || TableLine(r[0])
  {
    if lines != [] {
      if HeaderName(lines[0]).Some? { HeaderIsTable(lines[0]); }
      if HeaderName(lines[0]).None? || OwnHeader(lines[0], target) { RemovingStartsAtHeader(lines[1..], target); }
    }
  }

  lemma {:induction false} KeptBound(lines: seq<string>, target: string, seen: bool)
    requires Bound(lines, seen)
    ensures Bound(Kept(lines, target, false), seen)
  {
    if lines != [] {
      if HeaderName(lines[0]).Some? {
        HeaderIsTable(lines[0]);
        RemovingStartsAtHeader(lines[1..], target);
      } else if !TableLine(lines[0]) {
        KeptBound(lines[1..], target, if CredentialLine(lines[0]) then true else seen);
        assert Kept(lines, target, false)[1..] == Kept(lines[1..], target, false);
      }
    }
  }

  /** Dropping credential lines and stripping our tables commute. */
  lemma {:induction false} DropKeptCommute(lines: seq<string>, target: string)
    ensures DropCredential(Kept(lines, target, false)) == Kept(DropCredential(lines), target, false)
  {
    if lines != [] {
      if HeaderName(lines[0]).Some? {
        HeaderIsTable(lines[0]);
        RemovingStartsAtHeader(lines[1..], target);
      } else if !TableLine(lines[0]) {
        DropKeptCommute(lines[1..], target);
        assert Kept(lines, target, false)[1..] == Kept(lines[1..], target, false);
        if !CredentialLine(lines[0]) {
          assert DropCredential(lines)[1..] == DropCredential(lines[1..]);
        } else {
          assert DropCredential(lines) == DropCredential(lines[1..]);
        }
      }
    }
  }

  predicate NoOwnHeader(lines: seq<string>, target: string) {
    forall i :: 0 <= i < |lines| ==> !OwnHeader(lines[i], target)
  }

  lemma {:induction false} KeptNoOwn(lines: seq<string>, target: string, removing: bool)
    ensures NoOwnHeader(Kept(lines, target, removing), target)
  {
    if lines != [] {
      KeptNoOwn(lines[1..], target, true);
      KeptNoOwn(lines[1..], target, false);
    }
  }

  lemma KeptHead(lines: seq<string>, target: string)
    requires lines != [] && !OwnHeader(lines[0], target)
    ensures Kept(lines, target, false) == [lines[0]] + Kept(lines[1..], target, false)
  {
  }

  lemma {:induction false} KeptAll(lines: seq<string>, more: seq<string>, target: string)
    requires NoOwnHeader(lines, target)
    ensures Kept(lines + more, target, false) == lines + Kept(more, target, false)
  {
    hide OwnHeader, HeaderName;
    if lines == [] {
      assert lines + more == more;
      assert lines + Kept(more, target, false) == Kept(more, target, false);
    } else {
      KeptAll(lines[1..], more, target);
      KeptHead(lines + more, target);
      assert (lines + more)[1..] == lines[1..] + more;
      HeadAssoc(lines, Kept(more, target, false));
    }
  }

  lemma HeadAssoc<T>(lines: seq<T>, more: seq<T>)
    requires lines != []
    ensures [lines[0]] + (lines[1..] + more) == lines + more
  {
  }

  // ---- the text in terms of lines ----------------------------------------------------------------------------

  /** Everything of a text that survives an upsert, as lines: all but the fresh block. */
  function Body(existing: string, serverName: string): (r: seq<string>)
    ensures r != []
  {
    Tidied(Bounded(existing), Target(serverName))
  }

  /** The rest of an upsert, once the credential store is pinned. */
  function Tidied(lines: seq<string>, target: string): (r: seq<string>)
    ensures r != []
  {
    TrimLines(SqueezeLines(Or(Kept(lines, target, false)), 0))
  }

  /** The lines of the text with its credential store pinned. */
  function Bounded(existing: string): seq<string> {
    TrimLines(Or(Pinned(Split(CrlfToLf(existing))))) + [[]]
  }

  /** Joining no lines is joining one empty line. */
  function Or(lines: seq<string>): (r: seq<string>)
    ensures r != [] && Join(r) == Join(lines)
  {
    if lines == [] then [[]] else lines
  }

  lemma {:induction false} ReplacedOneLine(lines: seq<string>, replaced: bool)
    requires AllLines(lines) && OneLine(FILE_CREDENTIAL_STORE)
    ensures AllLines(Replaced(lines, replaced))
  {
    if lines != [] {
      ReplacedOneLine(lines[1..], true);
      ReplacedOneLine(lines[1..], replaced);
    }
  }

  lemma FileCredentialOneLine()
    ensures OneLine(FILE_CREDENTIAL_STORE)
  {
    assert '\n' !in "cli_auth_" && '\n' !in "credentials_store" && '\n' !in " = \"file\"";
  }

  lemma PinnedOneLine(lines: seq<string>)
    requires AllLines(lines)
    ensures AllLines(Pinned(lines))
  {
    FileCredentialOneLine();
    ReplacedOneLine(lines[..FirstTable(lines)], false);
    var n := DropEmptyEndPart(lines[..FirstTable(lines)]);
  }

  lemma TrimOneLine(lines: seq<string>)
    requires lines != [] && AllLines(lines)
    ensures AllLines(TrimLines(lines))
  {
    var k := TrimLinesParts(lines);
    var n := TrimEndPart(lines[k]);
  }

  lemma SubOneLine(part: seq<string>, lines: seq<string>)
    requires AllLines(lines) && forall l :: l in part ==> l in lines
    ensures AllLines(part)
  {
    forall i | 0 <= i < |part| ensures OneLine(part[i]) { assert part[i] in lines; }
  }

  lemma BoundedText(existing: string)
    ensures AllLines(Bounded(existing)) && Split(CredentialBound(existing)) == Bounded(existing)
  {
    var lines := Split(CrlfToLf(existing));
    PinnedOneLine(lines);
    PinnedBound(lines);
    var p := Pinned(lines);
    TrimOneLine(p);
    TrimJoin(p);
    JoinConcat(TrimLines(p), [[]]);
    assert Join(TrimLines(p)) + "\n" + [] == Join(TrimLines(p)) + "\n";
    SplitJoin(Bounded(existing));
  }

  lemma BodyOneLine(existing: string, serverName: string)
    ensures AllLines(Body(existing, serverName))
  {
    BoundedText(existing);
    var kept := Kept(Bounded(existing), Target(serverName), false);
    SubOneLine(kept, Bounded(existing));
    SubOneLine(SqueezeLines(Or(kept), 0), Or(kept));
    TrimOneLine(SqueezeLines(Or(kept), 0));
  }

  /** Stripping a text whose lines are known, at the level of lines. */
  lemma StripText(text: string, serverName: string)
    ensures TrimEnd(Stripped(text, serverName)) ==
            Join(Tidied(Split(text), Target(serverName)))
  {
    var kept := Or(Kept(Split(text), Target(serverName), false));
    SubOneLine(kept, Split(text) + [[]]);
    SqueezeSplit(Join(kept), 0);
    SplitJoin(kept);
    JoinSplit(Squeeze(Join(kept), 0));
    TrimJoin(SqueezeLines(kept, 0));
    TrimEndConcat(TrimEnd(Squeeze(Join(kept), 0)), "\n");
    TrimEndTwice(Squeeze(Join(kept), 0));
  }

  /** As a strip leaves a text: no blank run to squeeze, no trailing whitespace to trim. */
  predicate Tidy(b: seq<string>) {
    b != [] && Tight(b, 0) && !Blank(b[|b| - 1]) && TrimEnd(b[|b| - 1]) == b[|b| - 1]
  }

  /** The body keeps exactly one credential line on top, no table of ours, and is as tidy as a strip leaves it. */
  lemma BodyShape(existing: string, serverName: string)
    ensures var b := Body(existing, serverName);
            Bound(b, false) && NoOwnHeader(b, Target(serverName)) && Tidy(b)
  {
    var target := Target(serverName);
    PinnedBound(Split(CrlfToLf(existing)));
    TrimBound(Pinned(Split(CrlfToLf(existing))), false);
    BoundEmptyEnd(TrimLines(Pinned(Split(CrlfToLf(existing)))), false);
    KeptBound(Bounded(existing), target, false);
    var kept := Kept(Bounded(existing), target, false);
    KeptNoOwn(Bounded(existing), target, false);
    SqueezeBound(kept, 0, false);
    SqueezeTight(kept, 0);
    var s := SqueezeLines(kept, 0);
    TrimBound(s, false);
    TidyTrim(s, kept, target);
    BoundEndsInText(TrimLines(s));
  }

  lemma {:induction false} BoundEmptyEnd(lines: seq<string>, seen: bool)
    requires Bound(lines, seen)
    ensures Bound(lines + [[]], seen)
  {
    EmptyLine();
    if lines == [] {
      assert lines + [[]] == [[]];
    } else {
      assert (lines + [[]])[1..] == lines[1..] + [[]];
      if !TableLine(lines[0]) { BoundEmptyEnd(lines[1..], if CredentialLine(lines[0]) then true else seen); }
    }
  }

  lemma TidyTrim(s: seq<string>, kept: seq<string>, target: string)
    requires s != [] && Tight(s, 0) && NoOwnHeader(kept, target) && forall l :: l in s ==> l in kept
    ensures var b := TrimLines(s);
            && NoOwnHeader(b, target) && Tight(b, 0)
            && TrimEnd(b[|b| - 1]) == b[|b| - 1] && (|b| > 1 ==> !Blank(b[|b| - 1]))
  {
    var k := TrimLinesParts(s);
    TightPrefix(s, k, TrimEnd(s[k]), 0);
    TrimEndTwice(s[k]);
    forall i | 0 <= i <= k ensures !OwnHeader(s[i], target) { assert s[i] in kept; }
    HeaderTrimmed(s[k]);
  }

  lemma BoundEndsInText(b: seq<string>)
    requires b != [] && Bound(b, false) && (|b| > 1 ==> !Blank(b[|b| - 1]))
    ensures !Blank(b[|b| - 1])
  {
    if |b| == 1 {
      assert b[1..] == [];
      if Blank(b[0]) { BlankLine(b[0]); }
    }
  }

  /** An upsert is the body, an empty line, and the fresh block. */
  lemma UpsertedIsBody(existing: string, o: Options)
    ensures Upserted(existing, o) == Join(Body(existing, o.serverName)) + "\n\n" + Rendered(o) + "\n"
  {
    BoundedText(existing);
    StripText(CredentialBound(existing), o.serverName);
    PinnedBound(Split(CrlfToLf(existing)));
    BodyShape(existing, o.serverName);
    var b := Body(existing, o.serverName);
    if |b| > 1 { JoinLast(b); }
  }

  // ---- a second upsert -----------------------------------------------------------------------------------------

  predicate NoBreaks(t: string) { '\n' !in t && '\r' !in t }

  /** No option contains a line break. */
  predicate NoBreaksIn(o: Options) {
    && NoBreaks(o.serverName) && NoBreaks(o.nodePath) && (forall i :: 0 <= i < |o.nodeArgs| ==> NoBreaks(o.nodeArgs[i]))
    && NoBreaks(o.bridgePath) && NoBreaks(o.hubUrl) && NoBreaks(o.secret) && NoBreaks(o.profileId)
  }

  lemma {:induction false} TomlNoBreaks(s: string)
    requires NoBreaks(s)
    ensures NoBreaks(Escaped(s)) && NoBreaks(TomlStr(s))
  {
    if s != [] { TomlNoBreaks(s[1..]); }
  }

  lemma {:induction false} ArgsNoBreaks(args: seq<string>)
    requires forall i :: 0 <= i < |args| ==> NoBreaks(args[i])
    ensures NoBreaks(ArgList(args))
  {
    if args != [] {
      TomlNoBreaks(args[0]);
      ArgsNoBreaks(args[1..]);
    }
  }

  predicate AllNoBreaks(lines: seq<string>) { forall i :: 0 <= i < |lines| ==> NoBreaks(lines[i]) }

  lemma SettingNoBreaks(key: string, value: string)
    requires NoBreaks(key) && NoBreaks(value)
    ensures NoBreaks(key + TomlStr(value))
  {
    TomlNoBreaks(value);
  }

  lemma HeadersNoBreaks(name: string)
    requires NoBreaks(name)
    ensures NoBreaks(BlockHeader(name)) && NoBreaks(EnvHeader(name))
  {
    var p, e := "mcp_servers.", ".env]";
    assert NoBreaks(p) && NoBreaks(e);
  }

  lemma ArgsLineNoBreaks(args: seq<string>)
    requires forall i :: 0 <= i < |args| ==> NoBreaks(args[i])
    ensures NoBreaks("args = [" + ArgList(args) + "]")
  {
    ArgsNoBreaks(args);
    var p := "args = [";
    assert NoBreaks(p);
  }

  lemma KeysNoBreaks()
    ensures NoBreaks("command = ") && NoBreaks("AMA_HUB_URL = ") && NoBreaks("AMA_HUB_SECRET = ") && NoBreaks("AMA_PROFILE_ID = ")
  {
  }

  lemma BlockNoBreaks(o: Options)
    requires NoBreaksIn(o)
    ensures AllNoBreaks(BlockLines(o))
  {
    HeadersNoBreaks(o.serverName);
    KeysNoBreaks();
    SettingNoBreaks("command = ", o.nodePath);
    ArgsLineNoBreaks(o.nodeArgs + [Forward(o.bridgePath)]);
    SettingNoBreaks("AMA_HUB_URL = ", o.hubUrl);
    SettingNoBreaks("AMA_HUB_SECRET = ", o.secret);
    SettingNoBreaks("AMA_PROFILE_ID = ", o.profileId);
  }

  predicate NoCredential(lines: seq<string>) { forall i :: 0 <= i < |lines| ==> !CredentialLine(lines[i]) }

  /** How the lines of the block start: never with blanks, nor like a credential line. */
  lemma BlockStarts(o: Options)
    ensures |BlockLines(o)| == 8 && BlockLines(o)[3] == []
    ensures forall i | 0 <= i < 8 && i != 3 :: var l := BlockLines(o)[i];
              |l| > 1 && l[0] in {'[', 'c', 'a', 'A'} && (l[0] == 'c' ==> l[1] != 'l') && (l[0] == '[' <==> i in {0, 4})
  {
  }

  lemma BlockPlain(o: Options)
    ensures var l := BlockLines(o); NoCredential(l) && |l| == 8
    ensures forall i | i in {1, 2, 3, 5, 6, 7} :: HeaderName(BlockLines(o)[i]) == None
  {
    EmptyLine();
    BlockStarts(o);
    hide BlockLines, CredentialLine, HeaderName;
    forall i: int | 0 <= i < 8 && i != 3
      ensures !CredentialLine(BlockLines(o)[i]) && (i != 0 && i != 4 ==> HeaderName(BlockLines(o)[i]) == None)
    {
      OtherStart(BlockLines(o)[i]);
    }
  }

  lemma BlockEnd(o: Options)
    ensures var l := BlockLines(o)[7]; !Blank(l) && TrimEnd(l) == l
  {
    var l := BlockLines(o)[7];
    assert l[|l| - 1] == '"' && l[0] == 'A';
  }

  /** The lines of an upserted text. */
  function After(body: seq<string>, block: seq<string>): seq<string> {
    body + ([[]] + block) + [[]]
  }

  lemma AfterJoined(b: seq<string>, l: seq<string>)
    requires b != [] && l != [] && AllLines(b) && AllNoBreaks(l)
    ensures Join(After(b, l)) == Join(b) + "\n\n" + Join(l) + "\n" && Split(Join(After(b, l))) == After(b, l)
  {
    JoinConcat([[]], l);
    JoinConcat(b, [[]] + l);
    JoinConcat(b + ([[]] + l), [[]]);
    Newlines(Join(b), Join(l));
    SplitJoin(After(b, l));
  }

  lemma UpsertedLines(x: string, o: Options)
    requires NoBreaksIn(o)
    ensures Upserted(x, o) == Join(After(Body(x, o.serverName), BlockLines(o)))
    ensures Split(Upserted(x, o)) == After(Body(x, o.serverName), BlockLines(o))
  {
    UpsertedIsBody(x, o);
    BodyOneLine(x, o.serverName);
    BlockNoBreaks(o);
    AfterJoined(Body(x, o.serverName), BlockLines(o));
  }

  lemma Newlines(b: string, l: string)
    ensures b + "\n" + ([] + "\n" + l) + "\n" + [] == b + "\n\n" + l + "\n"
  {
  }

  lemma {:induction false} BoundAppend(lines: seq<string>, more: seq<string>, seen: bool)
    requires Bound(lines, seen) && NoCredential(more)
    ensures Bound(lines + more, seen)
    decreases |lines| + |more|
  {
    if lines != [] {
      assert (lines + more)[1..] == lines[1..] + more;
      if !TableLine(lines[0]) { BoundAppend(lines[1..], more, if CredentialLine(lines[0]) then true else seen); }
    } else {
      assert lines + more == more;
      if more != [] {
        assert lines + more[1..] == more[1..];
        BoundAppend([], more[1..], seen);
      }
    }
  }

  lemma {:induction false} BoundReplaced(lines: seq<string>, seen: bool)
    requires Bound(lines, seen)
    ensures var k := FirstTable(lines); Replaced(lines[..k], seen) == lines[..k] && (seen || HasCredential(lines[..k]))
  {
    hide TableLine, CredentialLine;
    if lines != [] && !TableLine(lines[0]) {
      var cred := CredentialLine(lines[0]);
      BoundReplaced(lines[1..], if cred then true else seen);
      var k := FirstTable(lines[1..]);
      assert lines[..k + 1] == [lines[0]] + lines[1..][..k];
      if cred {
        assert CredentialLine(lines[..k + 1][0]);
      } else if !seen {
        var i :| 0 <= i < k && CredentialLine(lines[1..][..k][i]);
        assert lines[..k + 1][i + 1] == lines[1..][..k][i];
      }
    }
  }

  /** A text whose credential store is bound is not changed by pinning it again. */
  lemma BoundPinned(lines: seq<string>)
    requires Bound(lines, false)
    ensures Pinned(lines) == lines
  {
    BoundReplaced(lines, false);
    var k := FirstTable(lines);
    assert lines[..k] + lines[k..] == lines;
  }

  predicate HasCrLf(t: string) {
    exists i :: 0 <= i < |t| - 1 && t[i] == '\r' && t[i + 1] == '\n'
  }

  lemma {:induction false} NoCrLfKept(t: string)
    requires !HasCrLf(t)
    ensures CrlfToLf(t) == t
  {
    if t != [] {
      assert t[0] == '\r' && |t| > 1 ==> t[0 + 1] != '\n';
      forall i | 0 <= i < |t[1..]| - 1 ensures !(t[1..][i] == '\r' && t[1..][i + 1] == '\n') {
        assert t[1..][i] == t[i + 1] && t[1..][i + 1] == t[i + 1 + 1];
      }
      NoCrLfKept(t[1..]);
      assert t == [t[0]] + t[1..];
    }
  }

  lemma AfterPinned(b: seq<string>, l: seq<string>)
    requires Bound(b, false) && NoCredential(l)
    ensures Pinned(After(b, l)) == After(b, l)
  {
    EmptyLine();
    var more := [[]] + l + [[]];
    BoundAppend(b, more, false);
    assert b + more == After(b, l);
    BoundPinned(After(b, l));
  }

  lemma AfterTrimmed(b: seq<string>, l: seq<string>)
    requires l != [] && !Blank(l[|l| - 1]) && TrimEnd(l[|l| - 1]) == l[|l| - 1]
    ensures TrimLines(After(b, l)) + [[]] == After(b, l)
  {
    TrimTail(b + [[]], l);
    assert b + [[]] + l == b + ([[]] + l);
  }

  /** Pinning the credential store of an upserted text changes nothing. */
  lemma UpsertedBounded(x: string, o: Options)
    requires NoBreaksIn(o) && !HasCrLf(Upserted(x, o))
    ensures Bounded(Upserted(x, o)) == After(Body(x, o.serverName), BlockLines(o))
  {
    UpsertedLines(x, o);
    NoCrLfKept(Upserted(x, o));
    BodyShape(x, o.serverName);
    BlockPlain(o);
    BlockEnd(o);
    AfterPinned(Body(x, o.serverName), BlockLines(o));
    AfterTrimmed(Body(x, o.serverName), BlockLines(o));
  }

  lemma TrimTail(front: seq<string>, l: seq<string>)
    requires l != [] && !Blank(l[|l| - 1]) && TrimEnd(l[|l| - 1]) == l[|l| - 1]
    ensures TrimLines(front + l + [[]]) == front + l
  {
    var t := front + l + [[]];
    var n := |t| - 1;
    assert t[..n] == front + l;
    assert (front + l)[..n - 1] + [l[|l| - 1]] == front + l;
  }

  lemma {:induction false} RemovingAll(lines: seq<string>, target: string)
    requires forall i :: 0 <= i < |lines| ==> HeaderName(lines[i]) == None || OwnHeader(lines[i], target)
    ensures Kept(lines, target, true) == []
  {
    if lines != [] { RemovingAll(lines[1..], target); }
  }

  lemma BlockRemoved(o: Options)
    requires Recognised(o.serverName)
    ensures Kept(BlockLines(o) + [[]], Target(o.serverName), false) == []
  {
    var l, target := BlockLines(o) + [[]], Target(o.serverName);
    OwnHeaderExactly(o.serverName);
    BlockPlain(o);
    EmptyLine();
    OwnEnvHeader(o.serverName);
    forall i | 0 <= i < |l[1..]| ensures HeaderName(l[1..][i]) == None || OwnHeader(l[1..][i], target) {
      assert l[1..][i] == l[i + 1];
      if i + 1 < 8 { assert l[i + 1] == BlockLines(o)[i + 1]; }
    }
    RemovingAll(l[1..], target);
  }

  lemma BlockKept(o: Options)
    requires !Recognised(o.serverName)
    ensures var k := Kept(BlockLines(o) + [[]], Target(o.serverName), false); k != [] && !Blank(k[0])
  {
    OwnHeaderExactly(o.serverName);
    assert BlockHeader(o.serverName)[0] == '[';
  }

  /** What the strip pass keeps of an upserted text: the body, and the block's lines it does not recognise. */
  lemma UpsertedKept(body: seq<string>, l: seq<string>, target: string)
    requires NoOwnHeader(body, target)
    ensures Kept(After(body, l), target, false) == body + [[]] + Kept(l + [[]], target, false)
  {
    EmptyLine();
    assert After(body, l) == (body + [[]]) + (l + [[]]);
    KeptAll(body + [[]], l + [[]], target);
  }

  lemma TidyBody(b: seq<string>)
    requires Tidy(b)
    ensures TrimLines(SqueezeLines(b + [[]], 0)) == b
  {
    TightEnd(b, 0);
    TightUnchanged(b + [[]], 0);
    TrimTail([], b);
    assert [] + b + [[]] == b + [[]] && [] + b == b;
  }

  lemma StableAfter(b: seq<string>, l: seq<string>, target: string)
    requires Tidy(b) && NoOwnHeader(b, target)
    requires Kept(l + [[]], target, false) == []
    ensures Tidied(After(b, l), target) == b
  {
    UpsertedKept(b, l, target);
    assert b + [[]] + [] == b + [[]];
    TidyBody(b);
  }

  lemma StableBlock(b: seq<string>, o: Options)
    requires Tidy(b)
    requires NoOwnHeader(b, Target(o.serverName)) && Recognised(o.serverName)
    ensures Tidied(After(b, BlockLines(o)), Target(o.serverName)) == b
  {
    BlockRemoved(o);
    StableAfter(b, BlockLines(o), Target(o.serverName));
  }

  /** The body of an upserted text is the body it was made with. */
  lemma BodyStable(x: string, o: Options)
    requires NoBreaksIn(o) && !HasCrLf(Upserted(x, o)) && Recognised(o.serverName)
    ensures Body(Upserted(x, o), o.serverName) == Body(x, o.serverName)
  {
    hide Upserted, BlockLines, Kept, Recognised;
    UpsertedBounded(x, o);
    BodyShape(x, o.serverName);
    StableBlock(Body(x, o.serverName), o);
  }

  // ---- when a second upsert is not absorbed ------------------------------------------------------------------------

  lemma GrowsAfter(b: seq<string>, l: seq<string>, target: string)
    requires NoOwnHeader(b, target)
    requires var more := Kept(l + [[]], target, false); more != [] && !Blank(more[0])
    ensures Tidied(After(b, l), target) != b
  {
    var more := Kept(l + [[]], target, false);
    UpsertedKept(b, l, target);
    var kept := b + [[]] + more;
    SqueezeKeepsSignificant(kept, 0);
    TrimKeepsSignificant(SqueezeLines(kept, 0));
    SignificantConcat(b + [[]], more);
    SignificantConcat(b, [[]]);
  }

  /** A block that is not recognised stays in the text for good. */
  lemma UnrecognisedGrows(x: string, o: Options)
    requires NoBreaksIn(o) && !HasCrLf(Upserted(x, o)) && !Recognised(o.serverName)
    ensures Body(Upserted(x, o), o.serverName) != Body(x, o.serverName)
  {
    UpsertedBounded(x, o);
    BodyShape(x, o.serverName);
    BlockKept(o);
    GrowsAfter(Body(x, o.serverName), BlockLines(o), Target(o.serverName));
  }

  function CarriageReturns(t: string): nat {
    if t == [] then 0 else (if t[0] == '\r' then 1 else 0) + CarriageReturns(t[1..])
  }

  function CarriageReturnsIn(lines: seq<string>): nat {
    if lines == [] then 0 else CarriageReturns(lines[0]) + CarriageReturnsIn(lines[1..])
  }

  lemma {:induction false} CountConcat(a: string, b: string)
    ensures CarriageReturns(a + b) == CarriageReturns(a) + CarriageReturns(b)
  {
    if a == [] {
      assert a + b == b;
    } else {
      assert (a + b)[1..] == a[1..] + b;
      CountConcat(a[1..], b);
    }
  }

  lemma {:induction false} CountLines(a: seq<string>, b: seq<string>)
    ensures CarriageReturnsIn(a + b) == CarriageReturnsIn(a) + CarriageReturnsIn(b)
  {
    if a == [] {
      assert a + b == b;
    } else {
      assert (a + b)[1..] == a[1..] + b;
      CountLines(a[1..], b);
    }
  }

  lemma {:induction false} CountJoin(lines: seq<string>)
    ensures CarriageReturns(Join(lines)) == CarriageReturnsIn(lines)
  {
    if |lines| == 1 {
      assert lines[1..] == [];
    } else if lines != [] {
      CountJoin(lines[1..]);
      CountConcat(lines[0] + "\n", Join(lines[1..]));
      CountConcat(lines[0], "\n");
    }
  }

  lemma {:induction false} CrlfLoses(t: string)
    ensures CarriageReturns(CrlfToLf(t)) <= CarriageReturns(t)
    ensures HasCrLf(t) ==> CarriageReturns(CrlfToLf(t)) < CarriageReturns(t)
    decreases |t|
  {
    if t == [] {
    } else if t[0] == '\r' && |t| > 1 && t[1] == '\n' {
      CrlfLoses(t[2..]);
      assert t[1..][1..] == t[2..];
      assert ("\n" + CrlfToLf(t[2..]))[1..] == CrlfToLf(t[2..]);
    } else {
      CrlfLoses(t[1..]);
      assert ([t[0]] + CrlfToLf(t[1..]))[1..] == CrlfToLf(t[1..]);
      if i :| 0 <= i < |t| - 1 && t[i] == '\r' && t[i + 1] == '\n' {
        assert t[1..][i - 1] == t[i] && t[1..][i - 1 + 1] == t[i + 1];
      }
    }
  }

  lemma CountTrimEnd(t: string)
    ensures CarriageReturns(TrimEnd(t)) <= CarriageReturns(t)
  {
    var n := TrimEndPart(t);
    CountConcat(t[..n], t[n..]);
    assert t[..n] + t[n..] == t;
  }

  lemma CountTrim(lines: seq<string>)
    requires lines != []
    ensures CarriageReturnsIn(TrimLines(lines)) <= CarriageReturnsIn(lines)
  {
    var k := TrimLinesParts(lines);
    CountTrimEnd(lines[k]);
    CountLines(lines[..k], [TrimEnd(lines[k])]);
    CountLines(lines[..k], lines[k..]);
    assert lines[..k] + lines[k..] == lines;
    assert [TrimEnd(lines[k])][1..] == [];
  }

  lemma {:induction false} CountSqueeze(lines: seq<string>, run: nat)
    ensures CarriageReturnsIn(SqueezeLines(lines, run)) == CarriageReturnsIn(lines)
  {
    if |lines| > 1 {
      var next := if lines[0] == [] then run + 1 else 1;
      CountSqueeze(lines[1..], next);
      var s := SqueezeLines(lines[1..], next);
      assert ([lines[0]] + s)[1..] == s && [] + s == s;
    }
  }

  lemma {:induction false} CountKept(lines: seq<string>, target: string, removing: bool)
    ensures CarriageReturnsIn(Kept(lines, target, removing)) <= CarriageReturnsIn(lines)
  {
    if lines != [] {
      CountKept(lines[1..], target, true);
      CountKept(lines[1..], target, false);
    }
  }

  lemma FileCredentialNoCr()
    ensures CarriageReturns(FILE_CREDENTIAL_STORE) == 0
  {
    assert '\r' !in "cli_auth_" && '\r' !in "credentials_store" && '\r' !in " = \"file\"";
    NoneCounted(FILE_CREDENTIAL_STORE);
  }

  lemma {:induction false} NoneCounted(t: string)
    requires '\r' !in t
    ensures CarriageReturns(t) == 0
  {
    if t != [] { NoneCounted(t[1..]); }
  }

  lemma {:induction false} CountReplaced(lines: seq<string>, replaced: bool)
    ensures CarriageReturnsIn(Replaced(lines, replaced)) <= CarriageReturnsIn(lines)
  {
    if lines != [] {
      FileCredentialNoCr();
      CountReplaced(lines[1..], true);
      CountReplaced(lines[1..], replaced);
      var r := Replaced(lines[1..], true);
      assert ([FILE_CREDENTIAL_STORE] + r)[1..] == r && [] + r == r;
    }
  }

  lemma CountPinned(lines: seq<string>)
    ensures CarriageReturnsIn(Pinned(lines)) <= CarriageReturnsIn(lines)
  {
    var k := FirstTable(lines);
    var top, rest := lines[..k], lines[k..];
    CountLines(top, rest);
    assert top + rest == lines;
    if HasCredential(top) {
      CountReplaced(top, false);
      CountLines(Replaced(top, false), rest);
    } else {
      var n := DropEmptyEndPart(top);
      CountLines(top[..n], top[n..]);
      assert top[..n] + top[n..] == top;
      CountAdded(top[..n], rest);
    }
  }

  lemma CountAdded(top: seq<string>, rest: seq<string>)
    ensures CarriageReturnsIn(top + [FILE_CREDENTIAL_STORE] + (if rest != [] then [[]] else []) + rest)
            == CarriageReturnsIn(top) + CarriageReturnsIn(rest)
  {
    FileCredentialNoCr();
    var gap: seq<string> := if rest != [] then [[]] else [];
    assert [FILE_CREDENTIAL_STORE][1..] == [];
    assert gap != [] ==> gap[1..] == [];
    CountLines(top, [FILE_CREDENTIAL_STORE]);
    CountLines(top + [FILE_CREDENTIAL_STORE], gap);
    CountLines(top + [FILE_CREDENTIAL_STORE] + gap, rest);
  }

  lemma {:induction false} CountNone(lines: seq<string>)
    requires AllNoBreaks(lines)
    ensures CarriageReturnsIn(lines) == 0
  {
    if lines != [] {
      NoneCounted(lines[0]);
      CountNone(lines[1..]);
    }
  }

  lemma CountAfter(b: seq<string>, l: seq<string>)
    requires AllNoBreaks(l)
    ensures CarriageReturns(Join(After(b, l))) == CarriageReturnsIn(b)
  {
    CountJoin(After(b, l));
    CountNone([[]] + l + [[]]);
    CountLines(b, [[]] + l + [[]]);
    assert After(b, l) == b + ([[]] + l + [[]]);
  }

  /** A carriage return in front of a newline is lost by the second upsert. */
  lemma CrLfShrinks(x: string, o: Options)
    requires NoBreaksIn(o) && HasCrLf(Upserted(x, o))
    ensures Body(Upserted(x, o), o.serverName) != Body(x, o.serverName)
  {
    UpsertedLines(x, o);
    BlockNoBreaks(o);
    CountAfter(Body(x, o.serverName), BlockLines(o));
    CrlfLoses(Upserted(x, o));
    BodyCount(Upserted(x, o), o.serverName);
  }

  lemma BodyCount(y: string, serverName: string)
    ensures CarriageReturnsIn(Body(y, serverName)) <= CarriageReturns(CrlfToLf(y))
  {
    var lines := Split(CrlfToLf(y));
    JoinSplit(CrlfToLf(y));
    CountJoin(lines);
    CountPinned(lines);
    PinnedBound(lines);
    CountTrim(Pinned(lines));
    CountLines(TrimLines(Pinned(lines)), [[]]);
    CountNone([[]]);
    var kept := Kept(Bounded(y), Target(serverName), false);
    CountKept(Bounded(y), Target(serverName), false);
    CountSqueeze(Or(kept), 0);
    CountTrim(SqueezeLines(Or(kept), 0));
  }

  // ---- theorems -----------------------------------------------------------------------------------------------------

  lemma SameBodySameText(x: string, y: string, o: Options)
    ensures Upserted(x, o) == Upserted(y, o) <==> Body(x, o.serverName) == Body(y, o.serverName)
  {
    UpsertedIsBody(x, o);
    UpsertedIsBody(y, o);
    BodyOneLine(x, o.serverName);
    BodyOneLine(y, o.serverName);
    SplitJoin(Body(x, o.serverName));
    SplitJoin(Body(y, o.serverName));
    SuffixCancels(Join(Body(x, o.serverName)), Join(Body(y, o.serverName)), Rendered(o));
  }

  lemma SuffixCancels(a: string, b: string, r: string)
    ensures a + "\n\n" + r + "\n" == b + "\n\n" + r + "\n" <==> a == b
  {
    assert (a + "\n\n" + r + "\n")[..|a|] == a;
    assert (b + "\n\n" + r + "\n")[..|b|] == b;
  }

  /** A second upsert under the same name absorbs the first unless a CRLF or an unrecognised name is in its way. */
  lemma AbsorbedUnlessCrLf(x: string, o1: Options, o2: Options)
    requires NoBreaksIn(o1) && o1.serverName == o2.serverName
    ensures Upserted(Upserted(x, o1), o2) == Upserted(x, o2) <==>
            !HasCrLf(Upserted(x, o1)) && Recognised(o1.serverName)
  {
    SameBodySameText(Upserted(x, o1), x, o2);
    if HasCrLf(Upserted(x, o1)) {
      CrLfShrinks(x, o1);
    } else if Recognised(o1.serverName) {
      BodyStable(x, o1);
    } else {
      UnrecognisedGrows(x, o1);
    }
  }

  // ---- what survives --------------------------------------------------------------------------------------------------

  lemma {:induction false} SignificantKept(lines: seq<string>, target: string, removing: bool)
    ensures Significant(Kept(lines, target, removing)) == Kept(Significant(lines), target, removing)
  {
    if lines != [] {
      SignificantKept(lines[1..], target, true);
      SignificantKept(lines[1..], target, false);
      HeaderTrimmed(lines[0]);
      if Blank(lines[0]) { BlankLine(lines[0]); }
      var t := Significant(lines[1..]);
      assert ([TrimEnd(lines[0])] + t)[1..] == t && [] + t == t;
      var k := Kept(lines[1..], target, false);
      assert ([lines[0]] + k)[1..] == k;
      assert [] + Significant(k) == Significant(k);
    }
  }

  lemma {:induction false} TrimLastDropped(front: seq<string>, last: string)
    ensures Significant(DropCredential(front + [TrimEnd(last)])) == Significant(DropCredential(front + [last]))
    ensures Blank(last) ==> Significant(DropCredential(front + [last])) == Significant(DropCredential(front))
  {
    TrimEndTwice(last);
    if front == [] {
      LastAlone(last);
    } else if TableLine(front[0]) {
      SignificantConcat(front, [last]);
      SignificantConcat(front, [TrimEnd(last)]);
      assert [last][1..] == [] && [TrimEnd(last)][1..] == [];
      assert Significant(front) + [] == Significant(front);
    } else {
      TrimLastDropped(front[1..], last);
      DropHead(front, last);
      DropHead(front, TrimEnd(last));
    }
  }

  lemma LastAlone(last: string)
    ensures Significant(DropCredential([] + [TrimEnd(last)])) == Significant(DropCredential([] + [last]))
    ensures Blank(last) ==> Significant(DropCredential([] + [last])) == []
  {
    var l := TrimEnd(last);
    TrimEndTwice(last);
    CredentialTrimmed(last);
    assert [] + [l] == [l] && [] + [last] == [last] && [l][1..] == [] && [last][1..] == [];
    if TableLine(last) { TableIsNoCredential(last); }
    if TableLine(l) { TableIsNoCredential(l); }
  }

  lemma DropOne(line: string, tail: seq<string>)
    requires !TableLine(line)
    ensures Significant(DropCredential([line] + tail)) ==
            Significant(if CredentialLine(line) then [] else [line]) + Significant(DropCredential(tail))
  {
    HeadBound(line, tail, false);
    SignificantConcat(if CredentialLine(line) then [] else [line], DropCredential(tail));
  }

  /** Dropping credential lines works line by line up to the first table. */
  lemma DropHead(front: seq<string>, last: string)
    requires front != [] && !TableLine(front[0])
    ensures Significant(DropCredential(front + [last])) ==
            Significant(if CredentialLine(front[0]) then [] else [front[0]]) + Significant(DropCredential(front[1..] + [last]))
    ensures Significant(DropCredential(front)) ==
            Significant(if CredentialLine(front[0]) then [] else [front[0]]) + Significant(DropCredential(front[1..]))
  {
    DropOne(front[0], front[1..] + [last]);
    DropOne(front[0], front[1..]);
    HeadAssoc(front, [last]);
    assert front == [front[0]] + front[1..];
  }

  lemma {:induction false} TrimDropped(lines: seq<string>)
    requires lines != []
    ensures Significant(DropCredential(TrimLines(lines))) == Significant(DropCredential(lines))
    decreases |lines|
  {
    var n := |lines| - 1;
    TrimLastDropped(lines[..n], lines[n]);
    assert lines[..n] + [lines[n]] == lines;
    if n > 0 && Blank(lines[n]) { TrimDropped(lines[..n]); }
  }

  /**
  Apart from the pinned credential line, the lines of an upserted text above the fresh block are the
  lines of the original outside our tables and without its top-level credential lines: the same lines
  in the same order, up to blank lines and trailing whitespace.
  */
  lemma ForeignLinesSurvive(x: string, serverName: string)
    ensures Significant(DropCredential(Body(x, serverName))) ==
            Significant(Kept(DropCredential(Split(CrlfToLf(x))), Target(serverName), false))
  {
    var lines, target := Split(CrlfToLf(x)), Target(serverName);
    var kept := Kept(Bounded(x), target, false);
    TrimDropped(SqueezeLines(Or(kept), 0));
    SqueezeBound(Or(kept), 0, false);
    EmptyLine();
    assert DropCredential(Or(kept)) == (if kept == [] then DropCredential([[]]) else DropCredential(kept));
    OrSignificant(kept);
    DropKeptCommute(Bounded(x), target);
    SignificantKept(DropCredential(Bounded(x)), target, false);
    PinnedBound(lines);
    TrimDropped(Pinned(lines));
    TrimLastDropped(TrimLines(Pinned(lines)), []);
    SignificantKept(DropCredential(lines), target, false);
  }

  lemma OrSignificant(kept: seq<string>)
    ensures Significant(DropCredential(Or(kept))) == Significant(DropCredential(kept))
  {
    EmptyLine();
    var one: seq<string> := [[]];
    assert one[1..] == [] && [] + one == one;
    LastAlone([]);
  }

  lemma StripLines(text: string, serverName: string)
    ensures Stripped(text, serverName) == Join(Tidied(Split(text), Target(serverName))) + "\n"
  {
    StripText(text, serverName);
    var t := Squeeze(Join(Kept(Split(text), Target(serverName), false)), 0);
    TrimEndConcat(TrimEnd(t), "\n");
    TrimEndTwice(t);
  }

  lemma StripAfter(text: string, b: seq<string>, o: Options)
    requires Split(text) == After(b, BlockLines(o)) && Recognised(o.serverName)
    requires Tidy(b)
    requires NoOwnHeader(b, Target(o.serverName))
    ensures Stripped(text, o.serverName) == Join(b) + "\n"
  {
    StableBlock(b, o);
    StripLines(text, o.serverName);
  }

  /** Stripping our tables again revokes the block and nothing else. */
  lemma StripRevokes(x: string, o: Options)
    requires NoBreaksIn(o) && Recognised(o.serverName)
    ensures Stripped(Upserted(x, o), o.serverName) == Join(Body(x, o.serverName)) + "\n"
  {
    UpsertedLines(x, o);
    BodyShape(x, o.serverName);
    StripAfter(Upserted(x, o), Body(x, o.serverName), o);
  }

  // ---- where the source does not keep its word ---------------------------------------------------------------------------

  /** Every carriage return of an ordinary file ends a line together with a newline. */
  predicate OrdinaryLineEnds(t: string) {
    forall i :: 0 <= i < |t| && t[i] == '\r' ==> i + 1 < |t| && t[i + 1] == '\n'
  }

  lemma {:induction false} OrdinaryNormalised(t: string)
    requires OrdinaryLineEnds(t)
    ensures CarriageReturns(CrlfToLf(t)) == 0
    decreases |t|
  {
    if t != [] {
      var skip := if t[0] == '\r' then 2 else 1;
      assert t[0] == '\r' ==> 0 + 1 < |t| && t[0 + 1] == '\n';
      var rest := t[skip..];
      forall i | 0 <= i < |rest| && rest[i] == '\r' ensures i + 1 < |rest| && rest[i + 1] == '\n' {
        assert t[i + skip] == '\r' && t[i + skip + 1] == '\n';
      }
      OrdinaryNormalised(rest);
      assert CrlfToLf(t)[1..] == CrlfToLf(rest);
    }
  }

  lemma {:induction false} NotCounted(t: string)
    requires CarriageReturns(t) == 0
    ensures '\r' !in t
  {
    if t != [] {
      NotCounted(t[1..]);
      assert t == [t[0]] + t[1..];
    }
  }

  /** For files with ordinary line ends the promise holds: upserting is absorbed by a later upsert. */
  lemma OrdinaryUpsertAbsorbs(x: string, o1: Options, o2: Options)
    requires NoBreaksIn(o1) && o1.serverName == o2.serverName && Recognised(o1.serverName) && OrdinaryLineEnds(x)
    ensures Upserted(Upserted(x, o1), o2) == Upserted(x, o2)
  {
    OrdinaryNormalised(x);
    BodyCount(x, o1.serverName);
    UpsertedLines(x, o1);
    BlockNoBreaks(o1);
    CountAfter(Body(x, o1.serverName), BlockLines(o1));
    NotCounted(Upserted(x, o1));
    AbsorbedUnlessCrLf(x, o1, o2);
  }

  /** A file that ends in a bare carriage return: the first upsert makes a CRLF, the second removes it. */
  lemma BareCarriageReturnCounterexample(o: Options)
    requires NoBreaksIn(o)
    ensures Upserted(Upserted("a\r", o), o) != Upserted("a\r", o)
  {
    BareBody(o.serverName);
    UpsertedIsBody("a\r", o);
    BareCrLf(FILE_CREDENTIAL_STORE, Rendered(o));
    AbsorbedUnlessCrLf("a\r", o, o);
  }

  lemma BareCrLf(store: string, rendered: string)
    ensures HasCrLf(Join(["a\r", store]) + "\n\n" + rendered + "\n")
  {
    var ls := ["a\r", store];
    assert ls[1..] == [store];
    var y := Join(ls) + "\n\n" + rendered + "\n";
    assert y[1] == '\r' && y[1 + 1] == '\n';
  }

  lemma BareBody(serverName: string)
    ensures Body("a\r", serverName) == ["a\r", FILE_CREDENTIAL_STORE]
  {
    var line := "a\r";
    OtherStart(line);
    FileCredentialLine();
    FileCredentialTrimmed();
    EmptyLine();
    assert line[1..] == "\r";
    SplitOneLine(line);
    assert CrlfToLf(line) == line;
    var lines := [line];
    assert FirstTable(lines) == 1 by { assert lines[1..] == []; }
    assert lines[..1] == lines && !HasCredential(lines);
    var n := DropEmptyEndPart(lines);
    assert DropEmptyEnd(lines) == lines;
    assert Pinned(lines) == [line, FILE_CREDENTIAL_STORE];
    BarePinned(line, serverName);
  }

  lemma BarePinned(line: string, serverName: string)
    requires line == "a\r" && HeaderName(line) == None && HeaderName(FILE_CREDENTIAL_STORE) == None && HeaderName([]) == None
    requires !Blank(FILE_CREDENTIAL_STORE) && TrimEnd(FILE_CREDENTIAL_STORE) == FILE_CREDENTIAL_STORE
    ensures var p := [line, FILE_CREDENTIAL_STORE]; Tidied(TrimLines(p) + [[]], Target(serverName)) == p
  {
    hide TableLine, CredentialLine, HeaderName;
    var p := [line, FILE_CREDENTIAL_STORE];
    assert p[..1] == [line];
    assert TrimLines(p) == p;
    KeptAll(p + [[]], [], Target(serverName));
    assert p + [[]] + [] == p + [[]];
    assert p[1..] == [FILE_CREDENTIAL_STORE];
    assert p[..1] + [FILE_CREDENTIAL_STORE] == p;
    TidyBody(p);
  }

  function Commented(name: string, note: string): string {
    "[" + (name + ("] #" + note))
  }

  /** A table header with a comment starts a table for the credential pass but is no header for the strip pass. */
  lemma CommentedHeader(name: string, note: string)
    requires name != [] && !IsSpace(name[0]) && '[' !in name && ']' !in name
    requires forall i :: 0 <= i < |note| ==> !LineTerminator(note[i])
    ensures HeaderName(Commented(name, note)) == None && TableLine(Commented(name, note))
  {
    var line, u := Commented(name, note), "] #" + note;
    HeaderNameIs(line);
    assert line[1..] == name + u;
    IndexAfter(name, u, ']');
    CommentTail(note, u);
    assert (name + u)[|name| + 1..] == u[1..];
    assert line[|name| + 2..] == u[1..];
  }

  lemma CommentTail(note: string, u: string)
    requires u == "] #" + note
    ensures IndexOfChar(u, ']') == 0 && DropClose(u[1..]) == u[1..] && !Blank(u[1..]) && TrimStart(u[1..]) == "#" + note
  {
    assert u[1..][1] == '#';
    assert u[1..][1..] == "#" + note;
  }
}
