/** Objects as finite maps: reading a key, and equality of objects key by key. */
module JsonObjects {
  import opened Prelude
  import opened Json

  /** The own value under a key, if there is one. */
  function Get(fields: seq<Field>, key: Text): Option<Json> {
    var i := IndexOf(fields, key);
    if i < |fields| then Some(fields[i].value) else None
  }

  function Keys(fields: seq<Field>): set<Text> {
    set i | 0 <= i < |fields| :: fields[i].key
  }

  lemma GetDefined(fields: seq<Field>, key: Text)
    ensures Get(fields, key).Some? <==> key in Keys(fields)
  {
    var i := IndexOf(fields, key);
    if i < |fields| {
      assert fields[i].key in Keys(fields);
    }
  }

  lemma GetCons(f: Field, fs: seq<Field>, k: Text)
    ensures Get([f] + fs, k) == if f.key == k then Some(f.value) else Get(fs, k)
  {
    assert ([f] + fs)[1..] == fs;
  }

  lemma GetAt(fields: seq<Field>, i: nat)
    requires DistinctKeys(fields) && i < |fields|
    ensures Get(fields, fields[i].key) == Some(fields[i].value)
  {
    IndexOfDistinct(fields, i);
  }

  ghost predicate ValidValue(v: Option<Json>) { v.Some? ==> Valid(v.value) }

  lemma GetValid(fields: seq<Field>, key: Text)
    requires Valid(Obj(fields))
    ensures ValidValue(Get(fields, key))
  {
    var i := IndexOf(fields, key);
    if i < |fields| {
      assert Valid(fields[i].value);
    }
  }

  ghost predicate SameValue(a: Option<Json>, b: Option<Json>) {
    a.Some? == b.Some? && (a.Some? ==> Same(a.value, b.value))
  }

  lemma SameValueAt(xs: seq<Field>, ys: seq<Field>, k: Text)
    requires Same(Obj(xs), Obj(ys)) && DistinctKeys(xs) && DistinctKeys(ys)
    ensures SameValue(Get(xs, k), Get(ys, k))
  {
    var i, j := IndexOf(xs, k), IndexOf(ys, k);
    if i < |xs| {
      assert Same(xs[i].value, ys[IndexOf(ys, xs[i].key)].value);
    }
    if j < |ys| {
      assert IndexOf(xs, ys[j].key) < |xs|;
    }
  }

  /** Objects are equal up to key order exactly when they agree under every key. */
  lemma SameObjects(xs: seq<Field>, ys: seq<Field>)
    requires DistinctKeys(xs) && DistinctKeys(ys)
    ensures Same(Obj(xs), Obj(ys)) <==> forall k: Text :: SameValue(Get(xs, k), Get(ys, k))
  {
    if Same(Obj(xs), Obj(ys)) {
      forall k: Text ensures SameValue(Get(xs, k), Get(ys, k)) { SameValueAt(xs, ys, k); }
    }
    if forall k: Text :: SameValue(Get(xs, k), Get(ys, k)) {
      forall i | 0 <= i < |xs|
        ensures IndexOf(ys, xs[i].key) < |ys| && Same(xs[i].value, ys[IndexOf(ys, xs[i].key)].value)
      {
        GetAt(xs, i);
        assert SameValue(Get(xs, xs[i].key), Get(ys, xs[i].key));
      }
      forall j | 0 <= j < |ys| ensures IndexOf(xs, ys[j].key) < |xs| {
        GetAt(ys, j);
        assert SameValue(Get(xs, ys[j].key), Get(ys, ys[j].key));
      }
    }
  }
}
