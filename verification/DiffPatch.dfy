/**
 What the list of changes means, exactly: when it patches a into b, shows real values and is empty only
 for equal values. A key that one of two compared objects lacks is read from its prototype, so all this
 depends on inherited names; that changes lie apart and print different paths does not.
*/
module DiffPatch {
  import opened Prelude
  import opened Json
  import opened JsonObjects
  import opened ReviewDigest
  import opened Inherited
  import opened StructuralDiff
  import Lex

  // ---- patching ------------------------------------------------------------------------------------

  /** Fields with the value under k replaced, added or (None) removed. */
  function Put(fields: seq<Field>, k: Text, v: Option<Json>): seq<Field> {
    if fields == [] then (if v.Some? then [Field(k, v.value)] else [])
    else if fields[0].key == k then (if v.Some? then [Field(k, v.value)] + fields[1..] else fields[1..])
    else [fields[0]] + Put(fields[1..], k, v)
  }

  function SetAt(v: Option<Json>, keys: seq<Text>, w: Option<Json>): Option<Json>
    decreases |keys|
  {
    if keys == [] then w
    else if v.Some? && v.value.Obj? then
      Some(Obj(Put(v.value.fields, keys[0], SetAt(Get(v.value.fields, keys[0]), keys[1..], w))))
    else v
  }

  /** Reads a only through the changes: every `before` is ignored. */
  function Apply(cs: seq<Change<Option<Json>>>, v: Option<Json>): Option<Json> {
    if cs == [] then v else Apply(cs[1..], SetAt(v, cs[0].keys, cs[0].after))
  }

  lemma {:induction false} ApplyConcat(cs: seq<Change<Option<Json>>>, ds: seq<Change<Option<Json>>>, v: Option<Json>)
    ensures Apply(cs + ds, v) == Apply(ds, Apply(cs, v))
  {
    if cs == [] {
      assert cs + ds == ds;
    } else {
      assert (cs + ds)[1..] == cs[1..] + ds;
      ApplyConcat(cs[1..], ds, SetAt(v, cs[0].keys, cs[0].after));
    }
  }

  lemma {:induction false} PutDistinct(fields: seq<Field>, k: Text, v: Option<Json>)
    requires DistinctKeys(fields)
    ensures DistinctKeys(Put(fields, k, v))
    ensures forall f :: f in Put(fields, k, v) ==> f.key == k || f in fields
  {
    if fields != [] && fields[0].key != k {
      PutDistinct(fields[1..], k, v);
      var t := Put(fields[1..], k, v);
      forall i | 0 <= i < |t| ensures t[i].key != fields[0].key {
        assert t[i] in t;
        if t[i].key != k { var n :| 0 <= n < |fields[1..]| && fields[1..][n] == t[i]; }
      }
    }
  }

  lemma {:induction false} PutGet(fields: seq<Field>, k: Text, v: Option<Json>, l: Text)
    requires DistinctKeys(fields)
    ensures Get(Put(fields, k, v), l) == if l == k then v else Get(fields, l)
  {
    if fields == [] {
    } else if fields[0].key != k {
      PutGet(fields[1..], k, v, l);
      GetCons(fields[0], Put(fields[1..], k, v), l);
      GetCons(fields[0], fields[1..], l);
      assert fields == [fields[0]] + fields[1..];
    } else {
      AbsentTail(fields);
      GetCons(fields[0], fields[1..], l);
      assert fields == [fields[0]] + fields[1..];
      if v.Some? { GetCons(Field(k, v.value), fields[1..], l); }
    }
  }

  lemma AbsentTail(fields: seq<Field>)
    requires fields != [] && DistinctKeys(fields)
    ensures Get(fields[1..], fields[0].key) == None
  {
    forall i | 0 <= i < |fields[1..]| ensures fields[1..][i].key != fields[0].key {
      assert fields[1..][i] == fields[i + 1];
    }
  }

  /** Changes below one key turn the value there and leave every other key alone. */
  lemma {:induction false} ApplyUnder(k: Text, cs: seq<Change<Option<Json>>>, fields: seq<Field>) returns (out: seq<Field>)
    requires DistinctKeys(fields)
    ensures Apply(Under(k, cs), Some(Obj(fields))) == Some(Obj(out)) && DistinctKeys(out)
    ensures Get(out, k) == Apply(cs, Get(fields, k))
    ensures forall l: Text :: l != k ==> Get(out, l) == Get(fields, l)
    decreases |cs|
  {
    if cs == [] {
      out := fields;
    } else {
      var c := cs[0];
      var next := Put(fields, k, SetAt(Get(fields, k), c.keys, c.after));
      assert Under(k, cs)[0].keys == [k] + c.keys && ([k] + c.keys)[1..] == c.keys;
      assert Under(k, cs)[1..] == Under(k, cs[1..]);
      forall l: Text
        ensures DistinctKeys(next)
        ensures Get(next, l) == if l == k then SetAt(Get(fields, k), c.keys, c.after) else Get(fields, l)
      {
        PutGet(fields, k, SetAt(Get(fields, k), c.keys, c.after), l);
        PutDistinct(fields, k, SetAt(Get(fields, k), c.keys, c.after));
      }
      out := ApplyUnder(k, cs[1..], next);
    }
  }

  // ---- changes that are JSON ---------------------------------------------------------------------------

  predicate IsJson(v: Seen) { v.Undefined? || v.Own? }

  function AsJson(v: Seen): Option<Json> {
    if v.Own? then Some(v.json) else None
  }

  /** No change shows something inherited. */
  ghost predicate JsonOnly(cs: seq<Change<Seen>>) {
    forall i :: 0 <= i < |cs| ==> IsJson(cs[i].before) && IsJson(cs[i].after)
  }

  function Plain(cs: seq<Change<Seen>>): seq<Change<Option<Json>>> {
    seq(|cs|, i requires 0 <= i < |cs| => Change(cs[i].keys, AsJson(cs[i].before), AsJson(cs[i].after)))
  }

  lemma PlainUnder(k: Text, cs: seq<Change<Seen>>, ds: seq<Change<Seen>>)
    ensures Plain(Under(k, cs) + ds) == Under(k, Plain(cs)) + Plain(ds)
    ensures JsonOnly(Under(k, cs) + ds) <==> JsonOnly(cs) && JsonOnly(ds)
  {
    var all := Under(k, cs) + ds;
    if JsonOnly(all) {
      forall i | 0 <= i < |cs| ensures IsJson(cs[i].before) && IsJson(cs[i].after) { assert all[i] == Under(k, cs)[i]; }
      forall i | 0 <= i < |ds| ensures IsJson(ds[i].before) && IsJson(ds[i].after) { assert all[|cs| + i] == ds[i]; }
    }
  }

  /** What happens at one key: the changes found there. */
  function At(a: seq<Field>, b: seq<Field>, k: Text): seq<Change<Seen>> {
    Delta(Read(Own(Obj(a)), k), Read(Own(Obj(b)), k))
  }

  lemma {:induction false} KeysJsonOnly(ks: seq<Text>, a: seq<Field>, b: seq<Field>)
    ensures JsonOnly(DeltaKeys(ks, Own(Obj(a)), Own(Obj(b)))) <==> forall k :: k in ks ==> JsonOnly(At(a, b, k))
  {
    if ks != [] {
      KeysJsonOnly(ks[1..], a, b);
      PlainUnder(ks[0], At(a, b, ks[0]), DeltaKeys(ks[1..], Own(Obj(a)), Own(Obj(b))));
      assert forall k :: k in ks <==> k == ks[0] || k in ks[1..];
    }
  }

  lemma {:induction false} KeysEmpty(ks: seq<Text>, a: seq<Field>, b: seq<Field>)
    ensures DeltaKeys(ks, Own(Obj(a)), Own(Obj(b))) == [] <==> forall k :: k in ks ==> At(a, b, k) == []
  {
    if ks != [] {
      KeysEmpty(ks[1..], a, b);
      assert |Under(ks[0], At(a, b, ks[0]))| == |At(a, b, ks[0])|;
      assert forall k :: k in ks <==> k == ks[0] || k in ks[1..];
    }
  }

  lemma HeadOnce(ks: seq<Text>)
    requires ks != [] && Increasing(ks)
    ensures ks[0] !in ks[1..]
    ensures forall k :: k in ks <==> k == ks[0] || k in ks[1..]
  {
    Lex.Irreflexive(ks[0]);
    assert ks == [ks[0]] + ks[1..];
  }

  /** The changes of two objects act key by key. */
  lemma {:induction false} KeysPatch(ks: seq<Text>, a: seq<Field>, b: seq<Field>, fields: seq<Field>) returns (out: seq<Field>)
    requires DistinctKeys(fields) && Increasing(ks)
    ensures Apply(Plain(DeltaKeys(ks, Own(Obj(a)), Own(Obj(b)))), Some(Obj(fields))) == Some(Obj(out)) && DistinctKeys(out)
    ensures forall k :: k in ks ==> Get(out, k) == Apply(Plain(At(a, b, k)), Get(fields, k))
    ensures forall k: Text :: k !in ks ==> Get(out, k) == Get(fields, k)
    decreases |ks|
  {
    hide Delta, Read, Apply;
    if ks == [] {
      out := fields;
      ApplyNothing(Some(Obj(fields)));
    } else {
      var k, rest := ks[0], DeltaKeys(ks[1..], Own(Obj(a)), Own(Obj(b)));
      var next := ApplyUnder(k, Plain(At(a, b, k)), fields);
      HeadOnce(ks);
      out := KeysPatch(ks[1..], a, b, next);
      PlainUnder(k, At(a, b, k), rest);
      ApplyConcat(Under(k, Plain(At(a, b, k))), Plain(rest), Some(Obj(fields)));
    }
  }

  lemma ApplyNothing(v: Option<Json>)
    ensures Apply([], v) == v && Plain([]) == []
  {
  }

  // ---- when the changes patch a into b -----------------------------------------------------------------

  /**
   No key that only one of two aligned objects has is an inherited name. Objects are aligned if they
   are compared: the two values themselves, and the values under a common key of aligned objects.
  */
  ghost predicate Clean(a: Json, b: Json) {
    a.Obj? && b.Obj? ==>
      && (forall i :: 0 <= i < |a.fields| ==>
            var j := IndexOf(b.fields, a.fields[i].key);
            if j < |b.fields| then Clean(a.fields[i].value, b.fields[j].value) else !InheritedName(a.fields[i].key))
      && (forall j :: 0 <= j < |b.fields| && IndexOf(a.fields, b.fields[j].key) == |a.fields| ==>
            !InheritedName(b.fields[j].key))
  }

  ghost predicate CleanValues(a: Option<Json>, b: Option<Json>) {
    a.Some? && b.Some? ==> Clean(a.value, b.value)
  }

  /** Under a key, clean objects are read as their own values, which are clean again. */
  lemma CleanAt(a: seq<Field>, b: seq<Field>, k: Text)
    requires Clean(Obj(a), Obj(b)) && (Get(a, k).Some? || Get(b, k).Some?)
    ensures Read(Own(Obj(a)), k) == Shown(Get(a, k)) && Read(Own(Obj(b)), k) == Shown(Get(b, k))
    ensures CleanValues(Get(a, k), Get(b, k))
  {
    var i, j := IndexOf(a, k), IndexOf(b, k);
    if i < |a| && j < |b| { assert Clean(a[i].value, b[j].value); }
    if i < |a| { assert a[i].key == k; }
    if j < |b| { assert b[j].key == k; }
    ReadPlain(a, k);
    ReadPlain(b, k);
  }

  lemma GetLower(fields: seq<Field>, k: Text)
    ensures Get(fields, k).Some? ==> Get(fields, k).value < Obj(fields)
  {
    var i := IndexOf(fields, k);
    if i < |fields| { assert fields[i].value < Obj(fields); }
  }

  lemma {:induction false} SameRefl(v: Option<Json>)
    requires ValidValue(v)
    ensures SameValue(v, v)
  {
    DigestDecides(v, v);
  }

  /** The changes of clean values are JSON and patch one into the other. */
  lemma {:induction false} CleanPatches(a: Option<Json>, b: Option<Json>)
    requires ValidValue(a) && ValidValue(b) && CleanValues(a, b)
    ensures JsonOnly(Delta(Shown(a), Shown(b)))
    ensures SameValue(Apply(Plain(Delta(Shown(a), Shown(b))), a), b)
    decreases Height(Shown(a)), 1
  {
    DigestDecides(a, b);
    if DigestText(a) != DigestText(b) {
      if a.Some? && b.Some? && a.value.Obj? && b.value.Obj? {
        ObjectsPatch(a.value.fields, b.value.fields);
      } else {
        var cs := Plain(Delta(Shown(a), Shown(b)));
        assert cs == [Change([], a, b)] && cs[1..] == [];
        SameRefl(b);
      }
    } else {
      ApplyNothing(a);
    }
  }

  lemma {:induction false} ObjectsPatch(a: seq<Field>, b: seq<Field>)
    requires Valid(Obj(a)) && Valid(Obj(b)) && Clean(Obj(a), Obj(b))
    ensures var cs := DeltaKeys(UnionKeys(a, b), Own(Obj(a)), Own(Obj(b)));
            JsonOnly(cs) && SameValue(Apply(Plain(cs), Some(Obj(a))), Some(Obj(b)))
    decreases Height(Own(Obj(a))), 0
  {
    var ks := UnionKeys(a, b);
    UnionKeysExact(a, b);
    var out := KeysPatch(ks, a, b, a);
    KeysJsonOnly(ks, a, b);
    forall k: Text ensures SameValue(Get(out, k), Get(b, k)) && (k in ks ==> JsonOnly(At(a, b, k))) {
      if k in ks {
        CleanAt(a, b, k);
        ReadHeight(Own(Obj(a)), k);
        GetValid(a, k);
        GetValid(b, k);
        CleanPatches(Get(a, k), Get(b, k));
      }
    }
    SameObjects(out, b);
  }

  /** Changes below a key leave an object an object, and undefined undefined. */
  lemma {:induction false} DeepChanges(cs: seq<Change<Option<Json>>>, v: Option<Json>)
    requires forall i :: 0 <= i < |cs| ==> cs[i].keys != []
    ensures v.None? ==> Apply(cs, v).None?
    ensures v.Some? ==> Apply(cs, v).Some?
  {
    if cs != [] { DeepChanges(cs[1..], SetAt(v, cs[0].keys, cs[0].after)); }
  }

  lemma {:induction false} KeysDeep(ks: seq<Text>, a: Seen, b: Seen)
    requires IsObject(a) && IsObject(b)
    ensures forall i :: 0 <= i < |DeltaKeys(ks, a, b)| ==>
              DeltaKeys(ks, a, b)[i].keys != [] && DeltaKeys(ks, a, b)[i].keys[0] in ks
    decreases |ks|
  {
    if ks != [] {
      KeysDeep(ks[1..], a, b);
      assert forall k :: k in ks[1..] ==> k in ks;
    }
  }

  /** A value against an inherited member, on either side: never JSON changes that bring the value or take it away. */
  lemma OneSided(v: Json, other: Seen)
    requires Valid(v) && (other.Method? || other.Prototype?)
    ensures var cs := Delta(Own(v), other); !(JsonOnly(cs) && Apply(Plain(cs), Some(v)).None?)
    ensures var cs := Delta(other, Own(v)); !(JsonOnly(cs) && Apply(Plain(cs), None).Some?)
  {
    UndefinedIsNoDigest(v);
    if SeenDigest(Own(v)) == SeenDigest(other) {
      ApplyNothing(Some(v));
      ApplyNothing(None);
    } else if IsObject(Own(v)) && IsObject(other) {
      AgainstPrototype(v);
    } else {
      hide SeenDigest, DeltaKeys, Apply;
      assert Delta(Own(v), other) == [Change([], Own(v), other)];
      assert Delta(other, Own(v)) == [Change([], other, Own(v))];
      assert !IsJson(Delta(Own(v), other)[0].after) && !IsJson(Delta(other, Own(v))[0].before);
    }
  }

  lemma AgainstPrototype(v: Json)
    requires v.Obj? && SeenDigest(Own(v)) != SeenDigest(Prototype)
    ensures Apply(Plain(Delta(Own(v), Prototype)), Some(v)).Some?
    ensures Apply(Plain(Delta(Prototype, Own(v))), None).None?
  {
    hide SeenDigest, DeltaKeys, Apply, UnionKeys;
    KeysDeep(UnionKeys(v.fields, []), Own(v), Prototype);
    KeysDeep(UnionKeys([], v.fields), Prototype, Own(v));
    DeepChanges(Plain(DeltaKeys(UnionKeys(v.fields, []), Own(v), Prototype)), Some(v));
    DeepChanges(Plain(DeltaKeys(UnionKeys([], v.fields), Prototype, Own(v))), None);
  }

  lemma UndefinedIsNoDigest(v: Json)
    requires Valid(v)
    ensures DigestText(Some(v)) != UNDEFINED_TEXT
  {
    NormListed(v);
    UndefinedIsNoJson(Listed(CanonicalJson.Norm(v)));
  }

  /** The diff tells the truth: it is a list of JSON changes, and they patch a into b. */
  ghost predicate Faithful(a: Json, b: Json) {
    var cs := Delta(Own(a), Own(b));
    JsonOnly(cs) && SameValue(Apply(Plain(cs), Some(a)), Some(b))
  }

  lemma {:induction false} SameIsClean(a: Json, b: Json)
    requires Valid(a) && Valid(b) && Same(a, b)
    ensures Clean(a, b)
  {
    if a.Obj? && b.Obj? {
      forall i | 0 <= i < |a.fields|
        ensures var j := IndexOf(b.fields, a.fields[i].key); j < |b.fields| && Clean(a.fields[i].value, b.fields[j].value)
      {
        SameIsClean(a.fields[i].value, b.fields[IndexOf(b.fields, a.fields[i].key)].value);
      }
    }
  }

  /** What a faithful diff of two different objects says at each key. */
  lemma FaithfulKeys(a: seq<Field>, b: seq<Field>)
    requires Valid(Obj(a)) && Valid(Obj(b)) && Faithful(Obj(a), Obj(b)) && !Same(Obj(a), Obj(b))
    ensures forall k :: Get(a, k).Some? && Get(b, k).Some? ==> Faithful(Get(a, k).value, Get(b, k).value)
    ensures forall k :: Get(a, k).Some? != Get(b, k).Some? ==> !InheritedName(k)
  {
    DigestDecides(Some(Obj(a)), Some(Obj(b)));
    var ks := UnionKeys(a, b);
    UnionKeysExact(a, b);
    var out := KeysPatch(ks, a, b, a);
    KeysJsonOnly(ks, a, b);
    SameObjects(out, b);
    hide Faithful, InheritedName, Same, Valid;
    forall k | k in ks
      ensures Get(a, k).Some? && Get(b, k).Some? ==> Faithful(Get(a, k).value, Get(b, k).value)
      ensures Get(a, k).Some? != Get(b, k).Some? ==> !InheritedName(k)
    {
      FaithfulAt(a, b, k, Get(out, k));
    }
  }

  lemma {:induction false} FaithfulIsClean(a: Json, b: Json)
    requires Valid(a) && Valid(b) && Faithful(a, b)
    ensures Clean(a, b)
    decreases a
  {
    if a.Obj? && b.Obj? && Same(a, b) {
      SameIsClean(a, b);
    } else if a.Obj? && b.Obj? {
      FaithfulKeys(a.fields, b.fields);
      hide Faithful, InheritedName, Same, Clean;
      forall k | Get(a.fields, k).Some? && Get(b.fields, k).Some?
        ensures Clean(Get(a.fields, k).value, Get(b.fields, k).value)
      {
        GetValid(a.fields, k);
        GetValid(b.fields, k);
        GetLower(a.fields, k);
        FaithfulIsClean(Get(a.fields, k).value, Get(b.fields, k).value);
      }
      CleanByKey(a.fields, b.fields);
    } else {
      NotObjectsClean(a, b);
    }
  }

  lemma NotObjectsClean(a: Json, b: Json)
    requires !a.Obj? || !b.Obj?
    ensures Clean(a, b)
  {
  }

  lemma CleanByKey(a: seq<Field>, b: seq<Field>)
    requires DistinctKeys(a) && DistinctKeys(b)
    requires forall k :: Get(a, k).Some? && Get(b, k).Some? ==> Clean(Get(a, k).value, Get(b, k).value)
    requires forall k :: Get(a, k).Some? != Get(b, k).Some? ==> !InheritedName(k)
    ensures Clean(Obj(a), Obj(b))
  {
    hide InheritedName;
    forall i | 0 <= i < |a|
      ensures var j := IndexOf(b, a[i].key);
              if j < |b| then Clean(a[i].value, b[j].value) else !InheritedName(a[i].key)
    {
      GetAt(a, i);
      assert Get(a, a[i].key).Some?;
    }
    forall j | 0 <= j < |b| && IndexOf(a, b[j].key) == |a| ensures !InheritedName(b[j].key) {
      GetAt(b, j);
      assert Get(b, b[j].key).Some?;
    }
  }

  /** If the changes at a key are JSON and right, the key is common and they are faithful, or its name is not inherited. */
  lemma FaithfulAt(a: seq<Field>, b: seq<Field>, k: Text, out: Option<Json>)
    requires Valid(Obj(a)) && Valid(Obj(b)) && JsonOnly(At(a, b, k))
    requires out == Apply(Plain(At(a, b, k)), Get(a, k)) && SameValue(out, Get(b, k))
    ensures Get(a, k).Some? && Get(b, k).Some? ==> Faithful(Get(a, k).value, Get(b, k).value)
    ensures Get(a, k).Some? != Get(b, k).Some? ==> !InheritedName(k)
  {
    GetValid(a, k);
    GetValid(b, k);
    if Get(a, k).Some? && Get(b, k).None? && InheritedName(k) {
      OneSided(Get(a, k).value, Read(Own(Obj(b)), k));
    }
    if Get(a, k).None? && Get(b, k).Some? && InheritedName(k) {
      OneSided(Get(b, k).value, Read(Own(Obj(a)), k));
    }
  }

  /**
   The diff is a list of JSON changes that patch a into b, up to key order, exactly if no key that only
   one of two aligned objects has is an inherited name.
  */
  lemma PatchesExactly(a: Json, b: Json)
    requires Valid(a) && Valid(b)
    ensures Faithful(a, b) <==> Clean(a, b)
  {
    if Clean(a, b) { CleanPatches(Some(a), Some(b)); }
    if Faithful(a, b) { FaithfulIsClean(a, b); }
  }

}
