/**
 structuralDiff: the changes between two reviewed values, each under an RFC 6901 style path. `Diff`
 builds the printed paths as the source does; `Delta` is the same list over key sequences. Escaped paths
 determine their key sequences, except that the root is printed like the empty key. A key that one
 object lacks is read from its prototype.
*/
module StructuralDiff {
  import opened Prelude
  import opened Json
  import opened JsonObjects
  import opened ReviewDigest
  import opened Inherited
  import Lex

  datatype Entry = Entry(path: Text, before: Seen, after: Seen)
  datatype Change<V> = Change(keys: seq<Text>, before: V, after: V)

  const TILDE: Unit := 0x7E
  const SLASH: Unit := 0x2F

  function EscapeKey(k: Text): Text {
    if k == [] then []
    else EscapedUnit(k[0]) + EscapeKey(k[1..])
  }

  function EscapedUnit(c: Unit): Text {
    if c == TILDE then [TILDE, 0x30] else if c == SLASH then [TILDE, 0x31] else [c]
  }

  // ---- the keys of both objects, sorted -----------------------------------------------------------

  function InsertKey(k: Text, ks: seq<Text>): seq<Text> {
    if ks == [] then [k]
    else if ks[0] == k then ks
    else if Lex.Less(ks[0], k) then [ks[0]] + InsertKey(k, ks[1..])
    else [k] + ks
  }

  function KeysInto(fields: seq<Field>, ks: seq<Text>): seq<Text> {
    if fields == [] then ks else InsertKey(fields[0].key, KeysInto(fields[1..], ks))
  }

  function UnionKeys(a: seq<Field>, b: seq<Field>): seq<Text> {
    KeysInto(a, KeysInto(b, []))
  }

  predicate Increasing(ks: seq<Text>) {
    forall i, j :: 0 <= i < j < |ks| ==> Lex.Less(ks[i], ks[j])
  }

  lemma {:induction false} InsertKeyMembers(k: Text, ks: seq<Text>)
    ensures forall l :: l in InsertKey(k, ks) <==> l == k || l in ks
  {
    if ks != [] && ks[0] != k && Lex.Less(ks[0], k) {
      InsertKeyMembers(k, ks[1..]);
      assert ks == [ks[0]] + ks[1..];
    }
  }

  lemma {:induction false} InsertKeyIncreasing(k: Text, ks: seq<Text>)
    requires Increasing(ks)
    ensures Increasing(InsertKey(k, ks))
  {
    if ks == [] || ks[0] == k {
    } else if Lex.Less(ks[0], k) {
      InsertKeyIncreasing(k, ks[1..]);
      InsertKeyMembers(k, ks[1..]);
      var t := InsertKey(k, ks[1..]);
      forall j | 0 <= j < |t| ensures Lex.Less(ks[0], t[j]) { assert t[j] in t; }
    } else {
      Lex.Trichotomy(ks[0], k);
      forall j | 0 <= j < |ks| ensures Lex.Less(k, ks[j]) {
        if j > 0 { Lex.Transitive(k, ks[0], ks[j]); }
      }
    }
  }

  lemma {:induction false} KeysIntoMembers(fields: seq<Field>, ks: seq<Text>)
    requires Increasing(ks)
    ensures Increasing(KeysInto(fields, ks))
    ensures forall k :: k in KeysInto(fields, ks) <==> k in ks || k in Keys(fields)
  {
    if fields != [] {
      KeysIntoMembers(fields[1..], ks);
      InsertKeyMembers(fields[0].key, KeysInto(fields[1..], ks));
      InsertKeyIncreasing(fields[0].key, KeysInto(fields[1..], ks));
      forall k ensures k in Keys(fields) <==> k == fields[0].key || k in Keys(fields[1..]) {
        if k in Keys(fields[1..]) {
          var i :| 0 <= i < |fields[1..]| && fields[1..][i].key == k;
          assert fields[i + 1].key == k;
        }
        if k in Keys(fields) && k != fields[0].key {
          var i :| 0 <= i < |fields| && fields[i].key == k;
          assert fields[1..][i - 1].key == k;
        }
      }
    }
  }

  lemma UnionKeysExact(a: seq<Field>, b: seq<Field>)
    ensures Increasing(UnionKeys(a, b))
    ensures forall k :: k in UnionKeys(a, b) <==> Get(a, k).Some? || Get(b, k).Some?
  {
    KeysIntoMembers(b, []);
    KeysIntoMembers(a, KeysInto(b, []));
    forall k ensures k in UnionKeys(a, b) <==> Get(a, k).Some? || Get(b, k).Some? {
      GetDefined(a, k);
      GetDefined(b, k);
    }
  }

  // ---- the diff ------------------------------------------------------------------------------------

  ghost function Height(v: Seen): nat {
    match v
    case Own(j) => ValueHeight(j)
    case Prototype => 2
    case _ => 0
  }

  ghost function ValueHeight(j: Json): nat {
    if j.Obj? then 3 + FieldsHeight(j.fields) else 1
  }

  ghost function FieldsHeight(fields: seq<Field>): nat {
    if fields == [] then 0
    else
      var h, t := ValueHeight(fields[0].value), FieldsHeight(fields[1..]);
      if h < t then t else h
  }

  lemma {:induction false} GetHeight(fields: seq<Field>, k: Text)
    ensures Get(fields, k).Some? ==> ValueHeight(Get(fields, k).value) <= FieldsHeight(fields)
  {
    if fields != [] && fields[0].key != k {
      GetHeight(fields[1..], k);
    }
  }

  /** Whatever is read from an object is lower than the object. */
  lemma ReadHeight(v: Seen, k: Text)
    requires IsObject(v)
    ensures Height(Read(v, k)) < Height(v)
  {
    GetHeight(OwnFields(v), k);
  }

  function Diff(a: Seen, b: Seen, path: Text): seq<Entry>
    decreases Height(a), 0
  {
    if SeenDigest(a) == SeenDigest(b) then []
    else if IsObject(a) && IsObject(b) then DiffKeys(UnionKeys(OwnFields(a), OwnFields(b)), a, b, path)
    else [Entry(if path == [] then [SLASH] else path, a, b)]
  }

  function DiffKeys(keys: seq<Text>, a: Seen, b: Seen, path: Text): seq<Entry>
    requires IsObject(a) && IsObject(b)
    decreases Height(a) - 1, |keys|
  {
    if keys == [] then []
    else
      ReadHeight(a, keys[0]);
      Diff(Read(a, keys[0]), Read(b, keys[0]), path + [SLASH] + EscapeKey(keys[0])) + DiffKeys(keys[1..], a, b, path)
  }

  /** The same list over key sequences. */
  function Delta(a: Seen, b: Seen): seq<Change<Seen>>
    decreases Height(a), 0
  {
    if SeenDigest(a) == SeenDigest(b) then []
    else if IsObject(a) && IsObject(b) then DeltaKeys(UnionKeys(OwnFields(a), OwnFields(b)), a, b)
    else [Change([], a, b)]
  }

  function DeltaKeys(keys: seq<Text>, a: Seen, b: Seen): seq<Change<Seen>>
    requires IsObject(a) && IsObject(b)
    decreases Height(a) - 1, |keys|
  {
    if keys == [] then []
    else
      ReadHeight(a, keys[0]);
      Under(keys[0], Delta(Read(a, keys[0]), Read(b, keys[0]))) + DeltaKeys(keys[1..], a, b)
  }

  function Under<V>(k: Text, cs: seq<Change<V>>): seq<Change<V>> {
    seq(|cs|, i requires 0 <= i < |cs| => cs[i].(keys := [k] + cs[i].keys))
  }

  // ---- printed paths ---------------------------------------------------------------------------------

  function Render(keys: seq<Text>): Text {
    if keys == [] then [] else [SLASH] + EscapeKey(keys[0]) + Render(keys[1..])
  }

  function Printed(path: Text, c: Change<Seen>): Entry {
    var p := path + Render(c.keys);
    Entry(if p == [] then [SLASH] else p, c.before, c.after)
  }

  function AllPrinted(path: Text, cs: seq<Change<Seen>>): seq<Entry> {
    seq(|cs|, i requires 0 <= i < |cs| => Printed(path, cs[i]))
  }

  lemma PathJoined(path: Text, e: Text, r: Text)
    ensures path + ([SLASH] + e + r) == path + [SLASH] + e + r
  {
  }

  lemma RenderCons(k: Text, ks: seq<Text>)
    ensures Render([k] + ks) == [SLASH] + EscapeKey(k) + Render(ks)
  {
    assert ([k] + ks)[1..] == ks;
  }

  lemma PrintedOne(path: Text, k: Text, c: Change<Seen>)
    ensures Printed(path, c.(keys := [k] + c.keys)) == Printed(path + [SLASH] + EscapeKey(k), c)
  {
    RenderCons(k, c.keys);
    PathJoined(path, EscapeKey(k), Render(c.keys));
  }

  lemma PrintedUnder(path: Text, k: Text, cs: seq<Change<Seen>>)
    ensures AllPrinted(path, Under(k, cs)) == AllPrinted(path + [SLASH] + EscapeKey(k), cs)
  {
    forall i | 0 <= i < |cs| ensures Printed(path, Under(k, cs)[i]) == Printed(path + [SLASH] + EscapeKey(k), cs[i]) {
      PrintedOne(path, k, cs[i]);
    }
  }

  /** The source's diff is Delta with its key sequences printed. */
  lemma {:induction false} DiffPrintsDelta(a: Seen, b: Seen, path: Text)
    ensures Diff(a, b, path) == AllPrinted(path, Delta(a, b))
    decreases Height(a), 0
  {
    if IsObject(a) && IsObject(b) {
      DiffKeysPrintsDelta(UnionKeys(OwnFields(a), OwnFields(b)), a, b, path);
    } else {
      assert path + Render([]) == path;
    }
  }

  lemma PrintedConcat(path: Text, cs: seq<Change<Seen>>, ds: seq<Change<Seen>>)
    ensures AllPrinted(path, cs + ds) == AllPrinted(path, cs) + AllPrinted(path, ds)
  {
  }

  lemma {:induction false} DiffKeysPrintsDelta(keys: seq<Text>, a: Seen, b: Seen, path: Text)
    requires IsObject(a) && IsObject(b)
    ensures DiffKeys(keys, a, b, path) == AllPrinted(path, DeltaKeys(keys, a, b))
    decreases Height(a) - 1, |keys|
  {
    if keys != [] {
      var cs := Delta(Read(a, keys[0]), Read(b, keys[0]));
      ReadHeight(a, keys[0]);
      DiffPrintsDelta(Read(a, keys[0]), Read(b, keys[0]), path + [SLASH] + EscapeKey(keys[0]));
      PrintedUnder(path, keys[0], cs);
      DiffKeysPrintsDelta(keys[1..], a, b, path);
      PrintedConcat(path, Under(keys[0], cs), DeltaKeys(keys[1..], a, b));
    }
  }

  lemma {:induction false} EscapeKeyPlain(k: Text)
    ensures SLASH !in EscapeKey(k)
  {
    if k != [] { EscapeKeyPlain(k[1..]); }
  }

  lemma EscapedUnitSplits(c: Unit, s: Text, d: Unit, t: Text)
    requires EscapedUnit(c) + s == EscapedUnit(d) + t
    ensures c == d && s == t
  {
    var x := EscapedUnit(c) + s;
    assert x[0] == if c == SLASH then TILDE else c;
    assert x[0] == if d == SLASH then TILDE else d;
    assert x[0] == TILDE ==> x[1] == (if c == SLASH then 0x31 else 0x30) && x[1] == (if d == SLASH then 0x31 else 0x30);
    assert x[|EscapedUnit(c)|..] == s && x[|EscapedUnit(d)|..] == t;
  }

  lemma RenderStarts(k: Text, ks: seq<Text>, ls: seq<Text>)
    requires k != []
    ensures EscapeKey(k) + Render(ks) != Render(ls)
  {
    EscapeKeyPlain(k);
    assert (EscapeKey(k) + Render(ks))[0] == EscapeKey(k)[0];
    assert EscapeKey(k)[0] in EscapeKey(k);
    assert ls != [] ==> Render(ls)[0] == SLASH;
  }

  /** A printed path determines its first key and the rest of the path. */
  lemma {:induction false} RenderSplits(k: Text, ks: seq<Text>, l: Text, ls: seq<Text>)
    requires EscapeKey(k) + Render(ks) == EscapeKey(l) + Render(ls)
    ensures k == l && Render(ks) == Render(ls)
    decreases |k|
  {
    hide EscapedUnit, Render;
    assert EscapeKey([]) + Render(ks) == Render(ks) && EscapeKey([]) + Render(ls) == Render(ls);
    if k != [] && l == [] {
      RenderStarts(k, ks, ls);
    } else if l != [] && k == [] {
      RenderStarts(l, ls, ks);
    } else if k != [] {
      UnescapeHead(k, Render(ks));
      UnescapeHead(l, Render(ls));
      EscapedUnitSplits(k[0], EscapeKey(k[1..]) + Render(ks), l[0], EscapeKey(l[1..]) + Render(ls));
      RenderSplits(k[1..], ks, l[1..], ls);
      assert k == [k[0]] + k[1..] && l == [l[0]] + l[1..];
    }
  }

  lemma UnescapeHead(k: Text, tail: Text)
    requires k != []
    ensures EscapeKey(k) + tail == EscapedUnit(k[0]) + (EscapeKey(k[1..]) + tail)
  {
  }

  lemma RenderHead(ks: seq<Text>)
    requires ks != []
    ensures Render(ks) != [] && Render(ks)[1..] == EscapeKey(ks[0]) + Render(ks[1..])
  {
  }

  lemma ConsEqual<T>(ks: seq<T>, ls: seq<T>)
    requires ks != [] && ls != [] && ks[0] == ls[0] && ks[1..] == ls[1..]
    ensures ks == ls
  {
    assert ks == [ks[0]] + ks[1..] && ls == [ls[0]] + ls[1..];
  }

  /** Distinct key sequences print distinct paths; the root's empty path is printed as one slash instead. */
  lemma {:induction false} RenderInjective(ks: seq<Text>, ls: seq<Text>)
    ensures Render(ks) == Render(ls) <==> ks == ls
  {
    if ks != [] { RenderHead(ks); }
    if ls != [] { RenderHead(ls); }
    if Render(ks) == Render(ls) && ks != [] && ls != [] {
      RenderSplits(ks[0], ks[1..], ls[0], ls[1..]);
      RenderInjective(ks[1..], ls[1..]);
      ConsEqual(ks, ls);
    }
  }

  /** One reference token of a JSON pointer, as RFC 6901 (section 4) reads it. */
  function Unescape(t: Text): Text {
    if t == [] then []
    else if t[0] == '~' as int && |t| > 1 && t[1] == '1' as int then ['/' as int] + Unescape(t[2..])
    else if t[0] == '~' as int && |t| > 1 && t[1] == '0' as int then ['~' as int] + Unescape(t[2..])
    else [t[0]] + Unescape(t[1..])
  }

  /** Position of the first slash, or the length. */
  function NextSlash(t: Text): (n: nat)
    ensures n <= |t|
  {
    if t == [] || t[0] == '/' as int then 0 else 1 + NextSlash(t[1..])
  }

  /** The keys a JSON pointer stands for: what is read behind each slash. */
  function Tokens(p: Text): seq<Text>
    decreases |p|
  {
    if p == [] then []
    else
      var n := NextSlash(p[1..]);
      [Unescape(p[1..][..n])] + Tokens(p[1..][n..])
  }

  lemma {:induction false} KeyReadsBack(k: Text)
    ensures Unescape(EscapeKey(k)) == k && '/' as int !in EscapeKey(k)
  {
    if k != [] {
      KeyReadsBack(k[1..]);
      var rest := EscapeKey(k[1..]);
      assert EscapeKey(k) == EscapedUnit(k[0]) + rest;
      assert k == [k[0]] + k[1..];
      if k[0] == TILDE || k[0] == SLASH {
        assert EscapeKey(k)[2..] == rest;
      } else {
        assert EscapeKey(k)[1..] == rest;
      }
    }
  }

  lemma {:induction false} NextSlashAfter(e: Text, rest: Text)
    requires '/' as int !in e && (rest == [] || rest[0] == '/' as int)
    ensures NextSlash(e + rest) == |e|
  {
    if e == [] {
      assert e + rest == rest;
    } else {
      assert e[0] in e && (e + rest)[1..] == e[1..] + rest;
      NextSlashAfter(e[1..], rest);
    }
  }

  lemma TokensSplit(p: Text, e: Text, rest: Text)
    requires p != [] && p[1..] == e + rest && NextSlash(e + rest) == |e|
    ensures Tokens(p) == [Unescape(e)] + Tokens(rest)
  {
    hide Unescape, NextSlash;
    assert (e + rest)[..|e|] == e && (e + rest)[|e|..] == rest;
  }

  /** A printed path is a JSON pointer to its keys: the escapes are those that RFC 6901 reads back. */
  lemma {:induction false} RenderReadsBack(keys: seq<Text>)
    ensures Tokens(Render(keys)) == keys
    ensures Render(keys) == [] || Render(keys)[0] == '/' as int
  {
    if keys != [] {
      var e, rest := EscapeKey(keys[0]), Render(keys[1..]);
      KeyReadsBack(keys[0]);
      RenderReadsBack(keys[1..]);
      RenderHead(keys);
      assert Render(keys)[0] == '/' as int;
      NextSlashAfter(e, rest);
      TokensSplit(Render(keys), e, rest);
      hide *;
      assert keys == [keys[0]] + keys[1..];
    }
  }

  /** Two changes print the same path exactly when their keys agree, or one is the root and one the empty key. */
  lemma PathCollision(c: Change<Seen>, d: Change<Seen>)
    ensures Printed([], c).path == Printed([], d).path <==>
            c.keys == d.keys || {c.keys, d.keys} == {[], [[]]}
  {
    assert [] + Render(c.keys) == Render(c.keys) && [] + Render(d.keys) == Render(d.keys);
    var empty: Text := [];
    assert EscapeKey(empty) == [];
    assert [empty][1..] == [];
    assert Render([empty]) == [SLASH];
    RenderInjective(c.keys, d.keys);
    RenderInjective(c.keys, [empty]);
    RenderInjective(d.keys, [empty]);
    RenderInjective(c.keys, []);
    RenderInjective(d.keys, []);
    if c.keys != d.keys {
      if c.keys == [] && d.keys == [empty] { assert {c.keys, d.keys} == {[], [[]]}; }
      if d.keys == [] && c.keys == [empty] { assert {c.keys, d.keys} == {[], [[]]}; }
      if {c.keys, d.keys} == {[], [[]]} { assert c.keys in {[], [[]]} && d.keys in {[], [[]]}; }
    }
  }
}
