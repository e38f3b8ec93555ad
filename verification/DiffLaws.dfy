/**
 When a diff is empty, what its entries show, and that they lie apart: the laws a reviewer of the list
 relies on, each with the exact part that inherited names play in it.
*/
module DiffLaws {
  import opened Prelude
  import opened Json
  import opened JsonObjects
  import opened ReviewDigest
  import opened Inherited
  import opened StructuralDiff
  import opened DiffPatch

  // ---- when nothing is reported ------------------------------------------------------------------------

  /** Like Object.prototype to the diff: an object without keys, or with only a null `__proto__`. */
  ghost predicate Blank(j: Json) {
    j.Obj? && forall i :: 0 <= i < |j.fields| ==> j.fields[i] == Field(PROTO, Null)
  }

  /** Equal up to key order and up to blank `__proto__` keys that only one side has. */
  ghost predicate Alike(a: Json, b: Json) {
    if a.Obj? && b.Obj? then
      && (forall i :: 0 <= i < |a.fields| ==>
            var j := IndexOf(b.fields, a.fields[i].key);
            if j < |b.fields| then Alike(a.fields[i].value, b.fields[j].value)
            else a.fields[i].key == PROTO && Blank(a.fields[i].value))
      && (forall j :: 0 <= j < |b.fields| && IndexOf(a.fields, b.fields[j].key) == |a.fields| ==>
            b.fields[j].key == PROTO && Blank(b.fields[j].value))
    else Same(a, b)
  }

  lemma EmptyObjectDigest(j: Json)
    requires Valid(j)
    ensures SeenDigest(Own(j)) == SeenDigest(Prototype) <==> j == Obj([])
  {
    var none: seq<Field> := [];
    var empty := Obj(none);
    DigestDecides(Some(j), Some(empty));
    assert CanonicalJson.Norm(empty) == empty;
    assert Listed(empty) == empty;
    assert PrintFields(none) == [];
    assert DigestText(Some(empty)) == [LBRACE] + [] + [RBRACE];
    if j.Obj? && j.fields != [] { assert IndexOf(none, j.fields[0].key) == |none|; }
  }

  lemma {:induction false} PrototypeKeysEmpty(ks: seq<Text>, fields: seq<Field>)
    ensures DeltaKeys(ks, Own(Obj(fields)), Prototype) == [] <==>
              forall k :: k in ks ==> Delta(Read(Own(Obj(fields)), k), Read(Prototype, k)) == []
    ensures DeltaKeys(ks, Prototype, Own(Obj(fields))) == [] <==>
              forall k :: k in ks ==> Delta(Read(Prototype, k), Read(Own(Obj(fields)), k)) == []
    decreases |ks|
  {
    hide Delta, Read;
    if ks != [] {
      PrototypeKeysEmpty(ks[1..], fields);
      var there := Delta(Read(Own(Obj(fields)), ks[0]), Read(Prototype, ks[0]));
      var back := Delta(Read(Prototype, ks[0]), Read(Own(Obj(fields)), ks[0]));
      assert |Under(ks[0], there)| == |there| && |Under(ks[0], back)| == |back|;
      assert forall k :: k in ks <==> k == ks[0] || k in ks[1..];
    }
  }

  lemma NullDigest(v: Json)
    requires Valid(v)
    ensures SeenDigest(Own(v)) == SeenDigest(Own(Null)) <==> v == Null
  {
    DigestDecides(Some(v), Some(Null));
  }

  /** One key of an object against Object.prototype. */
  lemma AgainstPrototypeAt(v: Json, k: Text)
    requires Valid(v)
    ensures Delta(Own(v), Read(Prototype, k)) == [] <==> k == PROTO && v == Null
    ensures Delta(Read(Prototype, k), Own(v)) == [] <==> k == PROTO && v == Null
  {
    UndefinedIsNoDigest(v);
    NullDigest(v);
  }

  lemma PrototypeSilent(j: Json)
    requires Valid(j)
    ensures Delta(Own(j), Prototype) == [] <==> Blank(j)
    ensures Delta(Prototype, Own(j)) == [] <==> Blank(j)
  {
    EmptyObjectDigest(j);
    if j.Obj? && j != Obj([]) {
      UnionKeysExact(j.fields, []);
      UnionKeysExact([], j.fields);
      PrototypeKeysEmpty(UnionKeys(j.fields, []), j.fields);
      PrototypeKeysEmpty(UnionKeys([], j.fields), j.fields);
      PrototypeKeysSilent(j.fields, UnionKeys(j.fields, []));
      PrototypeKeysSilent(j.fields, UnionKeys([], j.fields));
      hide DeltaKeys, UnionKeys, SeenDigest, Read;
    }
  }

  lemma PrototypeKeysSilent(fields: seq<Field>, ks: seq<Text>)
    requires Valid(Obj(fields)) && forall k :: k in ks <==> Get(fields, k).Some?
    ensures (forall k :: k in ks ==> Delta(Read(Own(Obj(fields)), k), Read(Prototype, k)) == []) <==> Blank(Obj(fields))
    ensures (forall k :: k in ks ==> Delta(Read(Prototype, k), Read(Own(Obj(fields)), k)) == []) <==> Blank(Obj(fields))
  {
    hide Delta;
    forall k | k in ks
      ensures Read(Own(Obj(fields)), k) == Own(Get(fields, k).value)
      ensures Delta(Own(Get(fields, k).value), Read(Prototype, k)) == [] <==> k == PROTO && Get(fields, k).value == Null
      ensures Delta(Read(Prototype, k), Own(Get(fields, k).value)) == [] <==> k == PROTO && Get(fields, k).value == Null
    {
      GetValid(fields, k);
      AgainstPrototypeAt(Get(fields, k).value, k);
    }
    forall i | 0 <= i < |fields| ensures fields[i].key in ks && Get(fields, fields[i].key) == Some(fields[i].value) {
      GetAt(fields, i);
    }
    hide Read;
  }

  lemma {:induction false} SameIsAlike(a: Json, b: Json)
    requires Valid(a) && Valid(b) && Same(a, b)
    ensures Alike(a, b)
  {
    if a.Obj? && b.Obj? {
      forall i | 0 <= i < |a.fields|
        ensures var j := IndexOf(b.fields, a.fields[i].key); j < |b.fields| && Alike(a.fields[i].value, b.fields[j].value)
      {
        SameIsAlike(a.fields[i].value, b.fields[IndexOf(b.fields, a.fields[i].key)].value);
      }
    }
  }

  /** Alike as far as one key goes. */
  ghost predicate AlikeAt(a: seq<Field>, b: seq<Field>, k: Text) {
    match (Get(a, k), Get(b, k))
    case (Some(v), Some(w)) => Alike(v, w)
    case (Some(v), None) => k == PROTO && Blank(v)
    case (None, Some(w)) => k == PROTO && Blank(w)
    case (None, None) => true
  }

  lemma AlikeByKey(a: seq<Field>, b: seq<Field>)
    requires DistinctKeys(a) && DistinctKeys(b)
    ensures Alike(Obj(a), Obj(b)) <==> forall k: Text :: AlikeAt(a, b, k)
  {
    hide Blank;
    if forall k: Text :: AlikeAt(a, b, k) {
      forall i | 0 <= i < |a|
        ensures var j := IndexOf(b, a[i].key);
                if j < |b| then Alike(a[i].value, b[j].value) else a[i].key == PROTO && Blank(a[i].value)
      {
        GetAt(a, i);
        assert AlikeAt(a, b, a[i].key);
      }
      forall j | 0 <= j < |b| && IndexOf(a, b[j].key) == |a| ensures b[j].key == PROTO && Blank(b[j].value) {
        GetAt(b, j);
        assert AlikeAt(a, b, b[j].key);
      }
    }
    if Alike(Obj(a), Obj(b)) {
      forall k: Text ensures AlikeAt(a, b, k) { AlikeAtKey(a, b, k); }
    }
  }

  lemma AlikeAtKey(a: seq<Field>, b: seq<Field>, k: Text)
    requires Alike(Obj(a), Obj(b))
    ensures AlikeAt(a, b, k)
  {
    hide Blank;
    var i, j := IndexOf(a, k), IndexOf(b, k);
    if i < |a| { assert a[i].key == k; }
    if j < |b| { assert b[j].key == k; }
  }

  /** What a key contributes to an empty diff. */
  lemma {:induction false} AtEmpty(a: seq<Field>, b: seq<Field>, k: Text)
    requires Valid(Obj(a)) && Valid(Obj(b)) && (Get(a, k).Some? || Get(b, k).Some?)
    ensures At(a, b, k) == [] <==> AlikeAt(a, b, k)
    decreases Height(Own(Obj(a))), 0
  {
    GetValid(a, k);
    GetValid(b, k);
    ReadHeight(Own(Obj(a)), k);
    if Get(a, k).Some? && Get(b, k).Some? {
      DiffEmptyExactly(Get(a, k).value, Get(b, k).value);
    } else {
      var v := if Get(a, k).Some? then Get(a, k).value else Get(b, k).value;
      UndefinedIsNoDigest(v);
      PrototypeSilent(v);
    }
  }

  /** Nothing is reported exactly for values that are alike. */
  lemma {:induction false} DiffEmptyExactly(a: Json, b: Json)
    requires Valid(a) && Valid(b)
    ensures Delta(Own(a), Own(b)) == [] <==> Alike(a, b)
    decreases Height(Own(a)), 1
  {
    DigestDecides(Some(a), Some(b));
    if Same(a, b) {
      SameIsAlike(a, b);
    } else if a.Obj? && b.Obj? {
      var xs, ys := a.fields, b.fields;
      UnionKeysExact(xs, ys);
      KeysEmpty(UnionKeys(xs, ys), xs, ys);
      AlikeByKey(xs, ys);
      hide DeltaKeys, UnionKeys, At, Alike, Same;
      forall k: Text ensures k !in UnionKeys(xs, ys) ==> AlikeAt(xs, ys, k) {}
      forall k | k in UnionKeys(xs, ys) ensures At(xs, ys, k) == [] <==> AlikeAt(xs, ys, k) {
        AtEmpty(xs, ys, k);
      }
    }
  }

  /** Clean values are alike only if they are equal. */
  lemma {:induction false} CleanAlike(a: Json, b: Json)
    requires Clean(a, b) && Alike(a, b)
    ensures Same(a, b)
  {
    if a.Obj? && b.Obj? {
      forall i | 0 <= i < |a.fields|
        ensures var j := IndexOf(b.fields, a.fields[i].key); j < |b.fields| && Same(a.fields[i].value, b.fields[j].value)
      {
        CleanAlike(a.fields[i].value, b.fields[IndexOf(b.fields, a.fields[i].key)].value);
      }
    }
  }

  /** An empty diff means equal values exactly if the values are clean. */
  lemma EmptyMeansEqualExactly(a: Json, b: Json)
    requires Valid(a) && Valid(b) && Delta(Own(a), Own(b)) == []
    ensures Same(a, b) <==> Clean(a, b)
  {
    DiffEmptyExactly(a, b);
    if Same(a, b) { SameIsClean(a, b); }
    if Clean(a, b) { CleanAlike(a, b); }
  }

  // ---- what the entries show ---------------------------------------------------------------------------

  function ValueAt(v: Option<Json>, keys: seq<Text>): Option<Json>
    decreases |keys|
  {
    if keys == [] then v
    else if v.Some? && v.value.Obj? then ValueAt(Get(v.value.fields, keys[0]), keys[1..])
    else None
  }

  /** A change is at a place where the values differ and are not both objects, and it shows both. */
  ghost predicate Real(c: Change<Seen>, a: Option<Json>, b: Option<Json>) {
    var before, after := ValueAt(a, c.keys), ValueAt(b, c.keys);
    && c.before == Shown(before) && c.after == Shown(after)
    && !SameValue(before, after)
    && !(before.Some? && after.Some? && before.value.Obj? && after.value.Obj?)
  }

  /** Every change between clean values is real. */
  lemma {:induction false} CleanIsReal(a: Option<Json>, b: Option<Json>, i: nat)
    requires ValidValue(a) && ValidValue(b) && CleanValues(a, b) && i < |Delta(Shown(a), Shown(b))|
    ensures Real(Delta(Shown(a), Shown(b))[i], a, b)
    decreases Height(Shown(a)), 1
  {
    DigestDecides(a, b);
    if a.Some? && b.Some? && a.value.Obj? && b.value.Obj? {
      UnionKeysExact(a.value.fields, b.value.fields);
      KeysReal(UnionKeys(a.value.fields, b.value.fields), a.value.fields, b.value.fields, i);
    }
  }

  lemma {:induction false} KeysReal(ks: seq<Text>, a: seq<Field>, b: seq<Field>, i: nat)
    requires Valid(Obj(a)) && Valid(Obj(b)) && Clean(Obj(a), Obj(b))
    requires forall k :: k in ks ==> Get(a, k).Some? || Get(b, k).Some?
    requires i < |DeltaKeys(ks, Own(Obj(a)), Own(Obj(b)))|
    ensures Real(DeltaKeys(ks, Own(Obj(a)), Own(Obj(b)))[i], Some(Obj(a)), Some(Obj(b)))
    decreases Height(Own(Obj(a))) - 1, |ks| + 1
  {
    hide Clean, InheritedName, Valid;
    var k, cs, rest := ks[0], At(a, b, ks[0]), DeltaKeys(ks[1..], Own(Obj(a)), Own(Obj(b)));
    assert DeltaKeys(ks, Own(Obj(a)), Own(Obj(b))) == Under(k, cs) + rest;
    if i < |cs| {
      CleanAt(a, b, k);
      ReadHeight(Own(Obj(a)), k);
      GetValid(a, k);
      GetValid(b, k);
      CleanIsReal(Get(a, k), Get(b, k), i);
      RealUnder(k, cs[i], a, b);
    } else {
      assert forall l :: l in ks[1..] ==> l in ks;
      KeysReal(ks[1..], a, b, i - |cs|);
    }
  }

  lemma RealUnder(k: Text, c: Change<Seen>, a: seq<Field>, b: seq<Field>)
    requires Real(c, Get(a, k), Get(b, k))
    ensures Real(c.(keys := [k] + c.keys), Some(Obj(a)), Some(Obj(b)))
  {
    assert ([k] + c.keys)[1..] == c.keys;
  }

  /** A change of two objects is a change at one of their keys. */
  lemma {:induction false} ChangeOrigin(ks: seq<Text>, a: seq<Field>, b: seq<Field>, c: Change<Seen>)
    ensures c in DeltaKeys(ks, Own(Obj(a)), Own(Obj(b))) <==>
              c.keys != [] && c.keys[0] in ks && c.(keys := c.keys[1..]) in At(a, b, c.keys[0])
  {
    hide Read, Delta;
    if ks != [] {
      ChangeOrigin(ks[1..], a, b, c);
      UnderMember(ks[0], At(a, b, ks[0]), c);
      assert forall k :: k in ks <==> k == ks[0] || k in ks[1..];
    }
  }

  lemma UnderMember(k: Text, cs: seq<Change<Seen>>, c: Change<Seen>)
    ensures c in Under(k, cs) <==> c.keys != [] && c.keys[0] == k && c.(keys := c.keys[1..]) in cs
  {
    if c in Under(k, cs) {
      var i :| 0 <= i < |cs| && Under(k, cs)[i] == c;
      assert c.keys == [k] + cs[i].keys && c.keys[1..] == cs[i].keys;
      assert c.(keys := c.keys[1..]) == cs[i];
    }
    if c.keys != [] && c.keys[0] == k && c.(keys := c.keys[1..]) in cs {
      var i :| 0 <= i < |cs| && cs[i] == c.(keys := c.keys[1..]);
      assert [k] + cs[i].keys == c.keys;
      assert Under(k, cs)[i] == c;
    }
  }

  /** Objects that do not have the same keys are compared key by key. */
  lemma Compared(a: seq<Field>, b: seq<Field>, k: Text)
    requires Valid(Obj(a)) && Valid(Obj(b)) && Get(a, k).Some? && Get(b, k).None?
    ensures Delta(Own(Obj(a)), Own(Obj(b))) == DeltaKeys(UnionKeys(a, b), Own(Obj(a)), Own(Obj(b)))
    ensures k in UnionKeys(a, b)
  {
    DigestDecides(Some(Obj(a)), Some(Obj(b)));
    SameObjects(a, b);
    assert !SameValue(Get(a, k), Get(b, k));
    UnionKeysExact(a, b);
  }

  /** A key that only the old object has is reported as removed exactly if its name is not inherited. */
  lemma RemovalReportedExactly(a: seq<Field>, b: seq<Field>, k: Text)
    requires Valid(Obj(a)) && Valid(Obj(b)) && Get(a, k).Some? && Get(b, k).None?
    ensures Change([k], Own(Get(a, k).value), Undefined) in Delta(Own(Obj(a)), Own(Obj(b))) <==> !InheritedName(k)
  {
    var v := Get(a, k).value;
    var c := Change([k], Own(v), Undefined);
    Compared(a, b, k);
    ChangeOrigin(UnionKeys(a, b), a, b, c);
    GetValid(a, k);
    RemovedAt(v, Read(Own(Obj(b)), k));
    assert c.(keys := c.keys[1..]) == Change([], Own(v), Undefined);
  }

  /** Against an inherited member, no change at the root says that the value is gone. */
  lemma RemovedAt(v: Json, other: Seen)
    requires Valid(v) && !other.Own?
    ensures Change([], Own(v), Undefined) in Delta(Own(v), other) <==> other == Undefined
  {
    UndefinedIsNoDigest(v);
    if IsObject(Own(v)) && IsObject(other) {
      KeysDeep(UnionKeys(OwnFields(Own(v)), []), Own(v), other);
    }
  }

  // ---- changes lie apart ---------------------------------------------------------------------------------

  ghost predicate Apart(p: seq<Text>, q: seq<Text>) { !(p <= q) && !(q <= p) }

  lemma ApartHeads(p: seq<Text>, q: seq<Text>)
    requires p != [] && q != [] && p[0] != q[0]
    ensures Apart(p, q)
  {
  }

  lemma ApartUnder(k: Text, p: seq<Text>, q: seq<Text>)
    requires Apart(p, q)
    ensures Apart([k] + p, [k] + q)
  {
    assert ([k] + p)[1..] == p && ([k] + q)[1..] == q;
    assert [k] + p <= [k] + q ==> p <= q;
    assert [k] + q <= [k] + p ==> q <= p;
  }

  ghost predicate AllApart(cs: seq<Change<Seen>>) {
    forall i, j :: 0 <= i < j < |cs| ==> Apart(cs[i].keys, cs[j].keys)
  }

  lemma UnderApart(k: Text, cs: seq<Change<Seen>>)
    requires AllApart(cs)
    ensures AllApart(Under(k, cs))
  {
    forall i, j | 0 <= i < j < |cs| ensures Apart(Under(k, cs)[i].keys, Under(k, cs)[j].keys) {
      ApartUnder(k, cs[i].keys, cs[j].keys);
    }
  }

  /** Changes under the first key are apart from changes under other keys. */
  lemma ConcatApart(k: Text, cs: seq<Change<Seen>>, ds: seq<Change<Seen>>)
    requires AllApart(cs) && AllApart(ds)
    requires forall i :: 0 <= i < |cs| ==> cs[i].keys != [] && cs[i].keys[0] == k
    requires forall j :: 0 <= j < |ds| ==> ds[j].keys != [] && ds[j].keys[0] != k
    ensures AllApart(cs + ds)
  {
    forall i, j | 0 <= i < |cs| && 0 <= j < |ds| ensures Apart(cs[i].keys, ds[j].keys) {
      ApartHeads(cs[i].keys, ds[j].keys);
    }
  }

  /** No change lies at or below another, whatever is compared. */
  lemma {:induction false} DeltaApart(a: Seen, b: Seen)
    ensures AllApart(Delta(a, b))
    decreases Height(a), 1
  {
    if IsObject(a) && IsObject(b) {
      UnionKeysExact(OwnFields(a), OwnFields(b));
      DeltaKeysApart(UnionKeys(OwnFields(a), OwnFields(b)), a, b);
    }
  }

  lemma {:induction false} DeltaKeysApart(ks: seq<Text>, a: Seen, b: Seen)
    requires IsObject(a) && IsObject(b) && Increasing(ks)
    ensures AllApart(DeltaKeys(ks, a, b))
    decreases Height(a) - 1, |ks| + 1
  {
    if ks != [] {
      var k := ks[0];
      var cs, ds := Delta(Read(a, k), Read(b, k)), DeltaKeys(ks[1..], a, b);
      ReadHeight(a, k);
      DeltaApart(Read(a, k), Read(b, k));
      hide Delta, Read;
      UnderApart(k, cs);
      DeltaKeysApart(ks[1..], a, b);
      HeadOnce(ks);
      KeysDeep(ks[1..], a, b);
      ConcatApart(k, Under(k, cs), ds);
    }
  }

  // ---- the printed diff ------------------------------------------------------------------------------------

  /** The printed paths of one diff are pairwise different. */
  lemma DiffPathsDistinct(a: Seen, b: Seen, i: nat, j: nat)
    requires i < j < |Diff(a, b, [])|
    ensures Diff(a, b, [])[i].path != Diff(a, b, [])[j].path
  {
    DiffPrintsDelta(a, b, []);
    DeltaApart(a, b);
    PathCollision(Delta(a, b)[i], Delta(a, b)[j]);
    assert Delta(a, b)[i].keys != [] && Delta(a, b)[j].keys != [];
  }

  /** The printed diff is empty exactly for values that are alike. */
  lemma PrintedEmptyExactly(a: Json, b: Json)
    requires Valid(a) && Valid(b)
    ensures Diff(Own(a), Own(b), []) == [] <==> Alike(a, b)
  {
    DiffPrintsDelta(Own(a), Own(b), []);
    DiffEmptyExactly(a, b);
  }

  /** The printed root path means the empty key as well: one text, two places. */
  lemma RootPathAmbiguous()
    ensures var c, d := Change([], Undefined, Own(Null)), Change([[]], Undefined, Own(Null));
            c.keys != d.keys && Printed([], c) == Printed([], d)
  {
    var empty: Text := [];
    assert [empty][1..] == [];
    assert EscapeKey(empty) == [];
    assert Render([empty]) == [SLASH];
  }

  // ---- the inputs -------------------------------------------------------------------------------------------

  /** An object with one key. */
  function One(k: Text, v: Json): Json { Obj([Field(k, v)]) }

  lemma OneField(k: Text, v: Json)
    requires Valid(v)
    ensures Valid(One(k, v)) && Get([Field(k, v)], k) == Some(v) && Valid(Obj([]))
  {
    var fields := [Field(k, v)];
    assert fields[0].key == k;
    GetAt(fields, 0);
  }

  /** Dropping an own `__proto__` key that holds an empty object is not reported at all. */
  lemma HiddenPrototypeKey()
    ensures var a, b := One(PROTO, Obj([])), Obj([]); !Same(a, b) && Diff(Own(a), Own(b), []) == []
  {
    var a, b := One(PROTO, Obj([])), Obj([]);
    OneField(PROTO, Obj([]));
    assert IndexOf(b.fields, PROTO) == 0;
    assert Alike(a, b);
    PrintedEmptyExactly(a, b);
    assert a.fields[0].key == PROTO;
  }

  /** Dropping a key named `constructor` is reported with a function as its new value, not as a removal. */
  lemma RemovedConstructorShown(v: Json)
    requires Valid(v)
    ensures var k := Ascii("constructor");
      && Change([k], Own(v), Method(k)) in Delta(Own(One(k, v)), Own(Obj([])))
      && Change([k], Own(v), Undefined) !in Delta(Own(One(k, v)), Own(Obj([])))
  {
    var k := Ascii("constructor");
    var none: seq<Field> := [];
    assert METHODS[0] == k;
    OneField(k, v);
    RemovalReportedExactly([Field(k, v)], none, k);
    MethodShown(k, v);
  }

  lemma MethodShown(k: Text, v: Json)
    requires Valid(v) && k in METHODS && k != PROTO
    ensures Change([k], Own(v), Method(k)) in Delta(Own(One(k, v)), Own(Obj([])))
  {
    var a, none: seq<Field> := [Field(k, v)], [];
    OneField(k, v);
    Compared(a, none, k);
    var c := Change([k], Own(v), Method(k));
    ChangeOrigin(UnionKeys(a, none), a, none, c);
    MethodAgainst(k, v);
    assert c.(keys := c.keys[1..]) == Change([], Own(v), Method(k));
    assert Read(Own(Obj(a)), k) == Own(v) && Read(Own(Obj(none)), k) == Method(k);
    hide DeltaKeys, UnionKeys, Delta, Read, Get;
  }

  lemma MethodAgainst(k: Text, v: Json)
    requires Valid(v)
    ensures Delta(Own(v), Method(k)) == [Change([], Own(v), Method(k))]
  {
    UndefinedIsNoDigest(v);
  }
}
