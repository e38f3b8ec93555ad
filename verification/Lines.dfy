/**
 Texts as lists of lines. Splitting and joining at newlines are inverse; squeezing blank runs and
 trimming the end of a text are the same operations on its lines. A list is tight if squeezing leaves
 it alone. Its significant lines are those that carry text, without trailing whitespace: what every
 edit of config.toml is allowed to keep or drop is said about them.
*/
module Lines {
  import opened Prelude
  import opened Text

  predicate OneLine(l: string) { '\n' !in l }

  predicate AllLines(ls: seq<string>) { forall i :: 0 <= i < |ls| ==> OneLine(ls[i]) }

  /** text.split('\n') */
  function Split(t: string): (ls: seq<string>)
    ensures ls != [] && AllLines(ls)
  {
    if t == [] then [[]]
    else
      var rest := Split(t[1..]);
      if t[0] == '\n' then [[]] + rest else [[t[0]] + rest[0]] + rest[1..]
  }

  /** lines.join('\n') */
  function Join(ls: seq<string>): string {
    if ls == [] then [] else if |ls| == 1 then ls[0] else ls[0] + "\n" + Join(ls[1..])
  }

  lemma {:induction false} JoinSplit(t: string)
    ensures Join(Split(t)) == t
  {
    if t != [] {
      JoinSplit(t[1..]);
      var rest := Split(t[1..]);
      assert t == [t[0]] + t[1..];
      if t[0] == '\n' {
        assert ([[]] + rest)[1..] == rest;
        assert [] + "\n" + Join(rest) == "\n" + Join(rest);
      } else {
        JoinHead(t[0], rest);
      }
    }
  }

  lemma JoinHead(c: char, rest: seq<string>)
    requires rest != []
    ensures Join([[c] + rest[0]] + rest[1..]) == [c] + Join(rest)
  {
    var u := [[c] + rest[0]] + rest[1..];
    assert u[1..] == rest[1..];
    if |rest| > 1 { assert [c] + rest[0] + "\n" + Join(rest[1..]) == [c] + (rest[0] + "\n" + Join(rest[1..])); }
  }

  lemma {:induction false} SplitOneLine(l: string)
    requires OneLine(l)
    ensures Split(l) == [l]
  {
    if l != [] {
      SplitOneLine(l[1..]);
      assert l == [l[0]] + l[1..];
    }
  }

  lemma {:induction false} SplitLine(l: string, t: string)
    requires OneLine(l)
    ensures Split(l + "\n" + t) == [l] + Split(t)
    decreases |l|
  {
    var u := l + "\n" + t;
    if l == [] {
      assert u == "\n" + t && u[1..] == t;
    } else {
      SplitLine(l[1..], t);
      assert u[1..] == l[1..] + "\n" + t;
      assert l == [l[0]] + l[1..];
      assert ([l[1..]] + Split(t))[1..] == Split(t);
    }
  }

  lemma {:induction false} SplitJoin(ls: seq<string>)
    requires ls != [] && AllLines(ls)
    ensures Split(Join(ls)) == ls
  {
    if |ls| == 1 {
      SplitOneLine(ls[0]);
    } else {
      SplitJoin(ls[1..]);
      SplitLine(ls[0], Join(ls[1..]));
      assert ls == [ls[0]] + ls[1..];
    }
  }

  lemma {:induction false} JoinConcat(a: seq<string>, b: seq<string>)
    requires a != [] && b != []
    ensures Join(a + b) == Join(a) + "\n" + Join(b)
  {
    if |a| == 1 {
      assert (a + b)[1..] == b;
    } else {
      JoinConcat(a[1..], b);
      assert (a + b)[1..] == a[1..] + b;
      assert a[0] + "\n" + (Join(a[1..]) + "\n" + Join(b)) == a[0] + "\n" + Join(a[1..]) + "\n" + Join(b);
    }
  }

  // ---- runs of newlines -------------------------------------------------------------------------------

  /** text.replace(/\n{3,}/g, '\n\n'); run counts the newlines just before the text. */
  function Squeeze(t: string, run: nat): string {
    if t == [] then []
    else if t[0] == '\n' then (if run < 2 then "\n" else []) + Squeeze(t[1..], run + 1)
    else [t[0]] + Squeeze(t[1..], 0)
  }

  /** The same on lines: empty lines after a run of two newlines go. */
  function SqueezeLines(ls: seq<string>, run: nat): (r: seq<string>)
    ensures ls != [] ==> r != []
    ensures forall l :: l in r ==> l in ls
  {
    if |ls| <= 1 then ls
    else if ls[0] == [] then (if run < 2 then [[]] else []) + SqueezeLines(ls[1..], run + 1)
    else [ls[0]] + SqueezeLines(ls[1..], 1)
  }

  lemma {:induction false} SqueezeSplit(t: string, run: nat)
    ensures Split(Squeeze(t, run)) == SqueezeLines(Split(t), run)
    decreases |t|
  {
    if t == [] {
    } else if t[0] == '\n' {
      SqueezeSplit(t[1..], run + 1);
      var s := Squeeze(t[1..], run + 1);
      assert ([[]] + Split(t[1..]))[1..] == Split(t[1..]);
      assert ("\n" + s)[1..] == s;
      assert [] + s == s;
      assert [] + SqueezeLines(Split(t[1..]), run + 1) == SqueezeLines(Split(t[1..]), run + 1);
    } else {
      SqueezeSplit(t[1..], 0);
      var s := Squeeze(t[1..], 0);
      assert ([t[0]] + s)[1..] == s;
      SqueezeHead(t[0], Split(t[1..]), run);
    }
  }

  lemma SqueezeHead(c: char, rest: seq<string>, run: nat)
    requires rest != [] && c != '\n'
    ensures var s := SqueezeLines(rest, 0);
            SqueezeLines([[c] + rest[0]] + rest[1..], run) == [[c] + s[0]] + s[1..]
  {
    var u := [[c] + rest[0]] + rest[1..];
    assert u[1..] == rest[1..];
  }

  /** No empty line is dropped. */
  predicate Tight(ls: seq<string>, run: nat) {
    |ls| <= 1 || (if ls[0] == [] then run < 2 && Tight(ls[1..], run + 1) else Tight(ls[1..], 1))
  }

  lemma {:induction false} TightUnchanged(ls: seq<string>, run: nat)
    requires Tight(ls, run)
    ensures SqueezeLines(ls, run) == ls
  {
    if |ls| > 1 {
      TightUnchanged(ls[1..], if ls[0] == [] then run + 1 else 1);
      assert ls == [ls[0]] + ls[1..];
    }
  }

  /** A longer run before only makes tightness harder, up to two. */
  lemma {:induction false} TightFewer(ls: seq<string>, run: nat, fewer: nat)
    requires Tight(ls, run) && fewer <= run
    ensures Tight(ls, fewer)
  {
    if |ls| > 1 && ls[0] == [] { TightFewer(ls[1..], run + 1, fewer + 1); }
  }

  lemma {:induction false} SqueezeTight(ls: seq<string>, run: nat)
    ensures Tight(SqueezeLines(ls, run), run)
  {
    if |ls| > 1 {
      if ls[0] == [] {
        SqueezeTight(ls[1..], run + 1);
        var s := SqueezeLines(ls[1..], run + 1);
        assert ([[]] + s)[1..] == s;
        assert [] + s == s;
        if run >= 2 { TightFewer(s, run + 1, run); }
      } else {
        SqueezeTight(ls[1..], 1);
        assert ([ls[0]] + SqueezeLines(ls[1..], 1))[1..] == SqueezeLines(ls[1..], 1);
      }
    }
  }

  lemma {:induction false} TightPrefix(ls: seq<string>, k: nat, last: string, run: nat)
    requires Tight(ls, run) && k < |ls|
    ensures Tight(ls[..k] + [last], run)
  {
    if k > 0 {
      TightPrefix(ls[1..], k - 1, last, if ls[0] == [] then run + 1 else 1);
      assert (ls[..k] + [last])[1..] == ls[1..][..k - 1] + [last];
    } else {
      assert ls[..0] + [last] == [last];
    }
  }

  /** A tight text whose last line is not empty stays tight with a newline after it. */
  lemma {:induction false} TightEnd(ls: seq<string>, run: nat)
    requires Tight(ls, run) && ls != [] && ls[|ls| - 1] != []
    ensures Tight(ls + [[]], run)
  {
    if |ls| > 1 {
      TightEnd(ls[1..], if ls[0] == [] then run + 1 else 1);
      assert (ls + [[]])[1..] == ls[1..] + [[]];
    } else {
      assert (ls + [[]])[1..] == [[]];
    }
  }

  // ---- trailing whitespace ------------------------------------------------------------------------------

  /** text.replace(/\s*$/, '') on lines. */
  function TrimLines(ls: seq<string>): (r: seq<string>)
    requires ls != []
    ensures r != []
  {
    var n := |ls| - 1;
    if n > 0 && Blank(ls[n]) then TrimLines(ls[..n]) else ls[..n] + [TrimEnd(ls[n])]
  }

  lemma TrimEndOf(t: string, n: nat)
    requires n <= |t| && Blank(t[n..]) && (n > 0 ==> !IsSpace(t[n - 1]))
    ensures TrimEnd(t) == t[..n]
  {
    var m := TrimEndPart(t);
    forall i | m <= i < |t| ensures IsSpace(t[i]) { assert t[m..][i - m] == t[i]; }
    forall i | n <= i < |t| ensures IsSpace(t[i]) { assert t[n..][i - n] == t[i]; }
  }

  lemma {:induction false} TrimEndConcat(a: string, b: string)
    ensures TrimEnd(a + b) == if Blank(b) then TrimEnd(a) else a + TrimEnd(b)
  {
    if Blank(b) {
      var n := TrimEndPart(a);
      assert (a + b)[n..] == a[n..] + b;
      assert (a + b)[..n] == a[..n];
      TrimEndOf(a + b, n);
    } else {
      var n := TrimEndPart(b);
      assert b[0..] == b;
      assert (a + b)[|a| + n..] == b[n..];
      assert (a + b)[..|a| + n] == a + b[..n];
      assert n > 0;
      assert (a + b)[|a| + n - 1] == b[n - 1];
      TrimEndOf(a + b, |a| + n);
    }
  }

  lemma JoinLast(ls: seq<string>)
    requires |ls| > 1
    ensures Join(ls) == Join(ls[..|ls| - 1]) + "\n" + ls[|ls| - 1]
  {
    var n := |ls| - 1;
    JoinConcat(ls[..n], [ls[n]]);
    assert ls[..n] + [ls[n]] == ls;
  }

  lemma {:induction false} TrimJoin(ls: seq<string>)
    requires ls != []
    ensures TrimEnd(Join(ls)) == Join(TrimLines(ls))
    decreases |ls|
  {
    var n := |ls| - 1;
    if n > 0 {
      JoinLast(ls);
      var front := Join(ls[..n]);
      TrimEndConcat(front + "\n", ls[n]);
      if Blank(ls[n]) {
        TrimEndConcat(front, "\n");
        TrimJoin(ls[..n]);
      } else {
        JoinLast(ls[..n] + [TrimEnd(ls[n])]);
        assert (ls[..n] + [TrimEnd(ls[n])])[..n] == ls[..n];
      }
    }
  }

  lemma {:induction false} TrimLinesParts(ls: seq<string>) returns (k: nat)
    requires ls != []
    ensures k < |ls| && TrimLines(ls) == ls[..k] + [TrimEnd(ls[k])]
    ensures k == 0 || !Blank(ls[k])
    ensures forall i :: k < i < |ls| ==> Blank(ls[i])
    decreases |ls|
  {
    var n := |ls| - 1;
    if n > 0 && Blank(ls[n]) {
      k := TrimLinesParts(ls[..n]);
      assert ls[..n][..k] == ls[..k];
      assert forall i :: 0 <= i < n ==> ls[..n][i] == ls[i];
    } else {
      k := n;
    }
  }

  lemma TrimEndTwice(t: string)
    ensures TrimEnd(TrimEnd(t)) == TrimEnd(t)
    ensures TrimEnd(t) == [] <==> Blank(t)
    ensures Blank(TrimEnd(t)) <==> Blank(t)
  {
    var n := TrimEndPart(t);
    assert t == t[..n] + t[n..];
    assert n > 0 ==> !IsSpace(t[..n][n - 1]);
    if n > 0 { assert TrimEnd(t)[n - 1] == t[n - 1]; }
  }

  /** The lines that carry text, without trailing whitespace. */
  function Significant(ls: seq<string>): seq<string> {
    if ls == [] then []
    else (if Blank(ls[0]) then [] else [TrimEnd(ls[0])]) + Significant(ls[1..])
  }

  lemma SignificantHead(ls: seq<string>)
    requires ls != []
    ensures Significant(ls) == (if Blank(ls[0]) then [] else [TrimEnd(ls[0])]) + Significant(ls[1..])
  {
  }

  lemma {:induction false} SignificantConcat(a: seq<string>, b: seq<string>)
    ensures Significant(a + b) == Significant(a) + Significant(b)
  {
    if a == [] {
      assert a + b == b;
    } else {
      SignificantConcat(a[1..], b);
      SignificantHead(a);
      SignificantHead(a + b);
      assert (a + b)[1..] == a[1..] + b;
      Assoc(if Blank(a[0]) then [] else [TrimEnd(a[0])], Significant(a[1..]), Significant(b));
    }
  }

  lemma {:induction false} SqueezeKeepsSignificant(ls: seq<string>, run: nat)
    ensures Significant(SqueezeLines(ls, run)) == Significant(ls)
  {
    if |ls| > 1 {
      var s := SqueezeLines(ls[1..], if ls[0] == [] then run + 1 else 1);
      SqueezeKeepsSignificant(ls[1..], if ls[0] == [] then run + 1 else 1);
      SignificantConcat([ls[0]], s);
      assert [ls[0]][1..] == [];
      assert [] + s == s;
    }
  }

  lemma {:induction false} TrimKeepsSignificant(ls: seq<string>)
    requires ls != []
    ensures Significant(TrimLines(ls)) == Significant(ls)
    decreases |ls|
  {
    var n := |ls| - 1;
    assert ls == ls[..n] + [ls[n]];
    SignificantConcat(ls[..n], [ls[n]]);
    assert [ls[n]][1..] == [];
    if n > 0 && Blank(ls[n]) {
      TrimKeepsSignificant(ls[..n]);
    } else {
      SignificantConcat(ls[..n], [TrimEnd(ls[n])]);
      assert [TrimEnd(ls[n])][1..] == [];
      TrimEndTwice(ls[n]);
    }
  }
}
