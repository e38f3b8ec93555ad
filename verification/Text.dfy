/** JavaScript string operations the modelled code relies on. */
module Text {
  import Lex

  /** ECMAScript WhiteSpace and LineTerminator: what `trim` removes and `\s` matches. */
  predicate IsSpace(c: char) {
    || c == ' ' || '\t' <= c <= '\r'
    || c == '\U{A0}' || c == '\U{1680}' || '\U{2000}' <= c <= '\U{200A}'
    || c == '\U{2028}' || c == '\U{2029}' || c == '\U{202F}' || c == '\U{205F}'
    || c == '\U{3000}' || c == '\U{FEFF}'
  }

  predicate Blank(s: string) {
    forall i :: 0 <= i < |s| ==> IsSpace(s[i])
  }

  function TrimStart(s: string): string {
    if s != [] && IsSpace(s[0]) then TrimStart(s[1..]) else s
  }

  function TrimEnd(s: string): string {
    if s != [] && IsSpace(s[|s| - 1]) then TrimEnd(s[..|s| - 1]) else s
  }

  function Trim(s: string): string {
    TrimEnd(TrimStart(s))
  }

  lemma {:induction false} TrimStartEmpty(t: string)
    ensures TrimStart(t) == [] <==> Blank(t)
    ensures TrimStart(t) != [] ==> !IsSpace(TrimStart(t)[0])
  {
    if t != [] {
      assert t == [t[0]] + t[1..];
      TrimStartEmpty(t[1..]);
    }
  }

  lemma {:induction false} TrimEndEmpty(t: string)
    ensures TrimEnd(t) == [] <==> Blank(t)
  {
    if t != [] {
      var n := |t| - 1;
      assert t == t[..n] + [t[n]];
      TrimEndEmpty(t[..n]);
    }
  }

  /** What TrimStart removes is blank, and it stops at text. */
  lemma {:induction false} TrimStartPart(t: string) returns (n: nat)
    ensures n <= |t| && TrimStart(t) == t[n..] && forall i :: 0 <= i < n ==> IsSpace(t[i])
    ensures n < |t| ==> !IsSpace(t[n])
  {
    hide IsSpace;
    n := 0;
    if t != [] && IsSpace(t[0]) {
      var m := TrimStartPart(t[1..]);
      n := m + 1;
      assert t[1..][m..] == t[n..];
      forall i | 0 <= i < n ensures IsSpace(t[i]) { if i > 0 { assert t[1..][i - 1] == t[i]; } }
    }
  }

  /** What TrimEnd removes is blank, and it stops at text. */
  lemma {:induction false} TrimEndPart(t: string) returns (n: nat)
    ensures n <= |t| && TrimEnd(t) == t[..n] && Blank(t[n..])
    ensures n > 0 ==> !IsSpace(t[n - 1])
    decreases |t|
  {
    if t != [] && IsSpace(t[|t| - 1]) {
      n := TrimEndPart(t[..|t| - 1]);
      assert t[..|t| - 1][..n] == t[..n];
      assert t[n..] == t[..|t| - 1][n..] + [t[|t| - 1]];
    } else {
      n := |t|;
      assert t[..n] == t;
    }
  }

  /** What `trim` leaves: the text from its first to its last character that is not blank. */
  lemma TrimMeans(t: string) returns (front: nat, back: nat)
    ensures front <= back <= |t| && Trim(t) == t[front..back]
    ensures forall i :: 0 <= i < front || back <= i < |t| ==> IsSpace(t[i])
    ensures front < back ==> !IsSpace(t[front]) && !IsSpace(t[back - 1])
  {
    front := TrimStartPart(t);
    var rest := t[front..];
    var n := TrimEndPart(rest);
    back := front + n;
    assert rest[..n] == t[front..back];
    forall i | back <= i < |t| ensures IsSpace(t[i]) { assert rest[n..][i - back] == t[i]; }
  }

  function Codes(s: string): seq<int> {
    seq(|s|, i requires 0 <= i < |s| => s[i] as int)
  }

  predicate Less(a: string, b: string) {
    Lex.Less(Codes(a), Codes(b))
  }

  /** What a comparison of JavaScript strings means: a proper prefix, or a smaller unit at the first difference. */
  lemma LessMeans(a: string, b: string)
    ensures Less(a, b) <==>
              (|a| < |b| && a == b[..|a|])
              || exists k :: 0 <= k < |a| && k < |b| && a[..k] == b[..k] && a[k] < b[k]
  {
    var x, y := Codes(a), Codes(b);
    Lex.LessMeans(x, y);
    SamePrefix(a, b);
    if k :| 0 <= k < |x| && k < |y| && x[..k] == y[..k] && x[k] < y[k] {
      assert a[..k] == b[..k] && a[k] < b[k];
    }
    if k :| 0 <= k < |a| && k < |b| && a[..k] == b[..k] && a[k] < b[k] {
      assert x[..k] == y[..k] && x[k] < y[k];
    }
  }

  lemma SamePrefix(a: string, b: string)
    ensures forall k :: 0 <= k <= |a| && k <= |b| ==> (a[..k] == b[..k] <==> Codes(a)[..k] == Codes(b)[..k])
  {
    forall k | 0 <= k <= |a| && k <= |b| ensures a[..k] == b[..k] <==> Codes(a)[..k] == Codes(b)[..k] {
      if Codes(a)[..k] == Codes(b)[..k] {
        forall i | 0 <= i < k ensures a[..k][i] == b[..k][i] { assert Codes(a)[..k][i] == Codes(b)[..k][i]; }
      }
      if a[..k] == b[..k] {
        forall i | 0 <= i < k ensures Codes(a)[..k][i] == Codes(b)[..k][i] { assert a[..k][i] == b[..k][i]; }
      }
    }
    if |a| <= |b| { assert a[..|a|] == a && Codes(a)[..|a|] == Codes(a); }
  }

  lemma LessTrichotomy(a: string, b: string)
    ensures Less(a, b) || a == b || Less(b, a)
    ensures !(Less(a, b) && Less(b, a)) && !Less(a, a)
  {
    Lex.Trichotomy(Codes(a), Codes(b));
    if Codes(a) == Codes(b) {
      assert |a| == |Codes(a)| == |Codes(b)| == |b|;
      forall i | 0 <= i < |a| ensures a[i] == b[i] { assert Codes(a)[i] == Codes(b)[i]; }
    }
  }

  lemma LessIrreflexive(a: string)
    ensures !Less(a, a)
  {
    Lex.Irreflexive(Codes(a));
  }

  lemma LessTransitive(a: string, b: string, c: string)
    requires Less(a, b) && Less(b, c)
    ensures Less(a, c)
  {
    Lex.Transitive(Codes(a), Codes(b), Codes(c));
  }

  predicate StrictlySorted(s: seq<string>) {
    forall i, j :: 0 <= i < j < |s| ==> Less(s[i], s[j])
  }

  /** Insertion into a strictly sorted list, dropping a repetition. */
  function InsertSorted(x: string, s: seq<string>): (r: seq<string>)
    requires StrictlySorted(s)
    ensures StrictlySorted(r)
    ensures forall y :: y in r <==> y == x || y in s
  {
    if s == [] then [x]
    else if x == s[0] then s
    else
      assert s == [s[0]] + s[1..];
      LessTrichotomy(x, s[0]);
      if Less(x, s[0]) then
        assert forall j :: 0 <= j < |s| ==> Less(x, s[j]) by { BelowAll(x, s); }
        [x] + s
      else
        var t := InsertSorted(x, s[1..]);
        assert forall j :: 0 <= j < |t| ==> Less(s[0], t[j]) by {
          forall j | 0 <= j < |t| ensures Less(s[0], t[j]) {
            assert t[j] in t;
          }
        }
        [s[0]] + t
  }

  lemma BelowAll(x: string, s: seq<string>)
    requires StrictlySorted(s) && s != [] && Less(x, s[0])
    ensures forall j :: 0 <= j < |s| ==> Less(x, s[j])
  {
    forall j | 0 <= j < |s| ensures Less(x, s[j]) {
      if j > 0 { LessTransitive(x, s[0], s[j]); }
    }
  }
}

/** The code-unit order of JavaScript strings, as lexicographic order on sequences of numbers. */
module Lex {

  predicate Less(a: seq<int>, b: seq<int>) {
    b != [] && (a == [] || a[0] < b[0] || (a[0] == b[0] && Less(a[1..], b[1..])))
  }

  /** A proper prefix, or smaller at the first difference. */
  lemma {:induction false} LessMeans(a: seq<int>, b: seq<int>)
    ensures Less(a, b) <==>
              (|a| < |b| && a == b[..|a|])
              || exists k :: 0 <= k < |a| && k < |b| && a[..k] == b[..k] && a[k] < b[k]
  {
    if a != [] && b != [] {
      var s, t := a[1..], b[1..];
      LessMeans(s, t);
      if a[0] == b[0] && |s| < |t| && s == t[..|s|] { assert a == [a[0]] + s && b[..|a|] == [b[0]] + t[..|s|]; }
      if a[0] == b[0] && Less(s, t) && !(|s| < |t| && s == t[..|s|]) {
        var k :| 0 <= k < |s| && k < |t| && s[..k] == t[..k] && s[k] < t[k];
        assert a[..k + 1] == [a[0]] + s[..k] && b[..k + 1] == [b[0]] + t[..k];
        assert a[..k + 1] == b[..k + 1] && a[k + 1] < b[k + 1];
      }
      if a[0] < b[0] { assert a[..0] == b[..0] && a[0] < b[0]; }
      if |a| < |b| && a == b[..|a|] { assert s == t[..|s|] && a[0] == b[0]; }
      if k :| 0 <= k < |a| && k < |b| && a[..k] == b[..k] && a[k] < b[k] {
        if k > 0 {
          assert a[0] == a[..k][0] && b[0] == b[..k][0];
          assert s[..k - 1] == a[..k][1..] && t[..k - 1] == b[..k][1..];
          assert s[k - 1] < t[k - 1];
        }
      }
    }
  }

  lemma {:induction false} Trichotomy(a: seq<int>, b: seq<int>)
    ensures Less(a, b) || a == b || Less(b, a)
    ensures !(Less(a, b) && Less(b, a)) && !Less(a, a)
  {
    if a != [] && b != [] && a[0] == b[0] {
      Trichotomy(a[1..], b[1..]);
      if a[1..] == b[1..] { assert a == [a[0]] + a[1..] == b; }
    }
    if a != [] { Irreflexive(a); }
  }

  lemma {:induction false} Irreflexive(a: seq<int>)
    ensures !Less(a, a)
  {
    if a != [] { Irreflexive(a[1..]); }
  }

  lemma {:induction false} Transitive(a: seq<int>, b: seq<int>, c: seq<int>)
    requires Less(a, b) && Less(b, c)
    ensures Less(a, c)
  {
    if a != [] && a[0] == b[0] && b[0] == c[0] {
      Transitive(a[1..], b[1..], c[1..]);
    }
  }
}
