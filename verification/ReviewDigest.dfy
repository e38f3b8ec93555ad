/**
 reviewDigest: the text whose hash stands for a value. Keys are sorted, but the text is printed from
 a JavaScript object, which lists array-index keys first, in numeric order, and then the others in
 the order they were added. SHA-256 is taken to be injective, so equal digests are equal texts.
*/
module ReviewDigest {
  import opened Prelude
  import opened Json
  import opened JsonObjects
  import CanonicalJson
  import JsonDecode

  const MAX_ARRAY_INDEX := 0xFFFF_FFFE

  predicate Digit(c: Unit) { 0x30 <= c <= 0x39 }

  function Decimal(k: Text): nat {
    if k == [] then 0
    else 10 * Decimal(k[..|k| - 1]) + if Digit(k[|k| - 1]) then k[|k| - 1] - 0x30 else 0
  }

  /** A key that JavaScript orders as an array index. */
  predicate ArrayIndex(k: Text) {
    && k != []
    && (forall i :: 0 <= i < |k| ==> Digit(k[i]))
    && (|k| > 1 ==> k[0] != 0x30)
    && Decimal(k) <= MAX_ARRAY_INDEX
  }

  predicate ListedBefore(k: Text, l: Text) {
    ArrayIndex(k) && (ArrayIndex(l) ==> Decimal(k) < Decimal(l))
  }

  /** Adding the earlier-created property f in front of the listing fs. */
  function ListField(f: Field, fs: seq<Field>): seq<Field> {
    if fs != [] && ListedBefore(fs[0].key, f.key) then [fs[0]] + ListField(f, fs[1..]) else [f] + fs
  }

  /** The value as JSON.stringify walks it. */
  function Listed(j: Json): Json {
    match j
    case Arr(items) => Arr(ListedItems(items))
    case Obj(fields) => Obj(ListedFields(fields))
    case _ => j
  }

  function ListedItems(items: seq<Json>): (r: seq<Json>)
    ensures |r| == |items|
    ensures forall i :: 0 <= i < |r| ==> r[i] == Listed(items[i])
  {
    if items == [] then [] else [Listed(items[0])] + ListedItems(items[1..])
  }

  function ListedFields(fields: seq<Field>): seq<Field> {
    if fields == [] then []
    else ListField(Field(fields[0].key, Listed(fields[0].value)), ListedFields(fields[1..]))
  }

  const UNDEFINED_TEXT: Text := [0x75, 0x6E, 0x64, 0x65, 0x66, 0x69, 0x6E, 0x65, 0x64]

  function DigestText(v: Option<Json>): Text {
    match v
    case None => UNDEFINED_TEXT
    case Some(j) => Print(Listed(CanonicalJson.Norm(j)))
  }

  // ---- the order of the listing -------------------------------------------------------------------

  /** ECMAScript's text of a whole number. */
  function Numeral(n: nat): Text {
    if n < 10 then ['0' as int + n] else Numeral(n / 10) + ['0' as int + n % 10]
  }

  predicate Digits(k: Text) { k != [] && forall i :: 0 <= i < |k| ==> Digit(k[i]) }

  lemma {:induction false} NumeralReads(n: nat)
    ensures Digits(Numeral(n)) && Decimal(Numeral(n)) == n && (n > 0 ==> Numeral(n)[0] != 0x30)
    ensures n >= 10 ==> |Numeral(n)| > 1
    ensures n < 10 ==> |Numeral(n)| == 1
  {
    if n < 10 {
      assert Numeral(n)[..0] == [];
    } else {
      NumeralReads(n / 10);
      assert Numeral(n)[..|Numeral(n)| - 1] == Numeral(n / 10);
    }
  }

  lemma {:induction false} DecimalWrites(k: Text)
    requires Digits(k) && (|k| > 1 ==> k[0] != 0x30)
    ensures Numeral(Decimal(k)) == k && (k[0] != 0x30 ==> Decimal(k) > 0)
  {
    var n := |k| - 1;
    var front, last := k[..n], k[n] - 0x30;
    assert Digit(k[n]) && k == front + [k[n]];
    if n == 0 {
      assert Decimal(front) == 0;
    } else {
      DecimalWrites(front);
      assert Decimal(k) / 10 == Decimal(front) && Decimal(k) % 10 == last;
    }
  }

  /** An array index is the text of a whole number up to 2^32 - 2, and orders as that number. */
  lemma ArrayIndexMeans(k: Text)
    ensures ArrayIndex(k) <==> exists n: nat :: n <= 4_294_967_294 && k == Numeral(n)
    ensures forall n: nat :: k == Numeral(n) ==> Decimal(k) == n
  {
    if ArrayIndex(k) { DecimalWrites(k); }
    forall n: nat | k == Numeral(n) ensures Decimal(k) == n && Digits(k) && (|k| > 1 ==> k[0] != 0x30) { NumeralReads(n); }
  }

  /** Array indices come first, in numeric order. */
  predicate IndicesFirst(fs: seq<Field>) {
    forall i, j :: 0 <= i < j < |fs| && ArrayIndex(fs[j].key) ==>
      ArrayIndex(fs[i].key) && Decimal(fs[i].key) <= Decimal(fs[j].key)
  }

  /** The keys that are no array indices, in order. */
  function Others(fs: seq<Field>): seq<Text> {
    if fs == [] then [] else (if ArrayIndex(fs[0].key) then [] else [fs[0].key]) + Others(fs[1..])
  }

  lemma {:induction false} ListFieldOrders(f: Field, fs: seq<Field>)
    requires IndicesFirst(fs)
    ensures IndicesFirst(ListField(f, fs))
    ensures Others(ListField(f, fs)) == (if ArrayIndex(f.key) then [] else [f.key]) + Others(fs)
  {
    if fs != [] && ListedBefore(fs[0].key, f.key) {
      ListFieldOrders(f, fs[1..]);
      ListFieldMembers(f, fs[1..]);
      var t := ListField(f, fs[1..]);
      hide ListField;
      forall j | 0 <= j < |t| && ArrayIndex(t[j].key)
        ensures ArrayIndex(fs[0].key) && Decimal(fs[0].key) <= Decimal(t[j].key)
      {
        if t[j] != f { var k :| 0 <= k < |fs[1..]| && fs[1..][k] == t[j]; }
      }
      assert ([fs[0]] + t)[1..] == t;
      assert [] + Others(t) == Others(t) && [] + Others(fs[1..]) == Others(fs[1..]);
    } else {
      hide Decimal, ArrayIndex;
      assert ([f] + fs)[1..] == fs;
    }
  }

  /** An object prints its array-index keys first, in numeric order, and then the others as they were added. */
  lemma {:induction false} ListedInOrder(fields: seq<Field>)
    ensures IndicesFirst(ListedFields(fields)) && Others(ListedFields(fields)) == Others(fields)
  {
    if fields != [] {
      ListedInOrder(fields[1..]);
      ListFieldOrders(Field(fields[0].key, Listed(fields[0].value)), ListedFields(fields[1..]));
    }
  }

  // ---- listing only reorders ----------------------------------------------------------------------

  lemma {:induction false} ListFieldGet(f: Field, fs: seq<Field>, k: Text)
    requires forall i :: 0 <= i < |fs| ==> fs[i].key != f.key
    ensures Get(ListField(f, fs), k) == if k == f.key then Some(f.value) else Get(fs, k)
  {
    hide Get, ListedBefore;
    if fs != [] && ListedBefore(fs[0].key, f.key) {
      ListFieldGet(f, fs[1..], k);
      GetCons(fs[0], ListField(f, fs[1..]), k);
      GetCons(fs[0], fs[1..], k);
      assert [fs[0]] + fs[1..] == fs;
    } else {
      GetCons(f, fs, k);
    }
  }

  lemma {:induction false} ListFieldMembers(f: Field, fs: seq<Field>)
    ensures forall i :: 0 <= i < |ListField(f, fs)| ==> ListField(f, fs)[i] == f || ListField(f, fs)[i] in fs
  {
    hide ListedBefore;
    if fs != [] && ListedBefore(fs[0].key, f.key) {
      ListFieldMembers(f, fs[1..]);
      assert [fs[0]] + fs[1..] == fs;
    }
  }

  lemma {:induction false} ListFieldDistinct(f: Field, fs: seq<Field>)
    requires DistinctKeys(fs) && forall i :: 0 <= i < |fs| ==> fs[i].key != f.key
    ensures DistinctKeys(ListField(f, fs))
  {
    if fs != [] && ListedBefore(fs[0].key, f.key) {
      ListFieldDistinct(f, fs[1..]);
      ListFieldMembers(f, fs[1..]);
      var t := ListField(f, fs[1..]);
      forall i | 0 <= i < |t| ensures t[i].key != fs[0].key {
        if t[i] != f { var k :| 0 <= k < |fs[1..]| && fs[1..][k] == t[i]; }
      }
    }
  }

  lemma {:induction false} ListedFieldsGet(fields: seq<Field>, k: Text)
    requires DistinctKeys(fields)
    ensures DistinctKeys(ListedFields(fields))
    ensures Get(ListedFields(fields), k) ==
            match Get(fields, k) { case None => None case Some(v) => Some(Listed(v)) }
    ensures forall i :: 0 <= i < |ListedFields(fields)| ==>
              exists n :: 0 <= n < |fields| && ListedFields(fields)[i] == Field(fields[n].key, Listed(fields[n].value))
  {
    if fields != [] {
      ListedFieldsGet(fields[1..], k);
      var f, rest := Field(fields[0].key, Listed(fields[0].value)), ListedFields(fields[1..]);
      forall i | 0 <= i < |rest| ensures exists n :: 1 <= n < |fields| && rest[i] == Field(fields[n].key, Listed(fields[n].value)) {
        var n :| 0 <= n < |fields[1..]| && rest[i] == Field(fields[1..][n].key, Listed(fields[1..][n].value));
        assert fields[1..][n] == fields[n + 1];
      }
      ListFieldDistinct(f, rest);
      ListFieldGet(f, rest, k);
      ListFieldMembers(f, rest);
      forall i | 0 <= i < |ListField(f, rest)|
        ensures exists n :: 0 <= n < |fields| && ListField(f, rest)[i] == Field(fields[n].key, Listed(fields[n].value))
      {
        if ListField(f, rest)[i] == f {
          assert f == Field(fields[0].key, Listed(fields[0].value));
        } else {
          var m :| 0 <= m < |rest| && rest[m] == ListField(f, rest)[i];
        }
      }
    }
  }

  lemma {:induction false} ListedSame(j: Json)
    requires Valid(j)
    ensures Valid(Listed(j)) && Same(j, Listed(j))
  {
    match j
    case Arr(items) =>
      forall i | 0 <= i < |items| ensures Valid(ListedItems(items)[i]) && Same(items[i], ListedItems(items)[i]) {
        ListedSame(items[i]);
      }
    case Obj(fields) =>
      ListedFieldsValid(fields);
      ListedFieldsSame(fields);
    case _ =>
  }

  lemma {:induction false} ListedFieldsValid(fields: seq<Field>)
    requires Valid(Obj(fields))
    ensures Valid(Obj(ListedFields(fields)))
    decreases Obj(fields), 0
  {
    var ls := ListedFields(fields);
    ListedFieldsGet(fields, []);
    forall i | 0 <= i < |ls| ensures Valid(ls[i].value) {
      var n :| 0 <= n < |fields| && ls[i] == Field(fields[n].key, Listed(fields[n].value));
      ListedSame(fields[n].value);
    }
  }

  lemma {:induction false} ListedFieldsSame(fields: seq<Field>)
    requires Valid(Obj(fields))
    ensures Same(Obj(fields), Obj(ListedFields(fields)))
    decreases Obj(fields), 0
  {
    var ls := ListedFields(fields);
    ListedFieldsGet(fields, []);
    forall k: Text ensures SameValue(Get(fields, k), Get(ls, k)) {
      ListedFieldsGet(fields, k);
      GetValid(fields, k);
      var i := IndexOf(fields, k);
      if i < |fields| { ListedSame(fields[i].value); }
    }
    SameObjects(fields, ls);
  }

  // ---- equal digests are equal values ----------------------------------------------------------------

  lemma UndefinedIsNoJson(j: Json)
    requires Valid(j)
    ensures Print(j) != UNDEFINED_TEXT
  {
    assert UNDEFINED_TEXT[0] == 0x75;
    match j
    case Num(token) => assert NumUnit(token[0]);
    case Bool(b) => assert Print(j)[0] == if b then 0x74 else 0x66;
    case Str(t) => assert Print(j)[0] == QUOTE;
    case Arr(items) => assert Print(j)[0] == LBRACKET;
    case Obj(fields) => assert Print(j)[0] == LBRACE;
    case Null => assert Print(j)[0] == 0x6E;
  }

  /** Digest texts are equal exactly when both values are undefined or equal up to object key order. */
  lemma DigestDecides(a: Option<Json>, b: Option<Json>)
    requires ValidValue(a) && ValidValue(b)
    ensures DigestText(a) == DigestText(b) <==> SameValue(a, b)
  {
    if a.Some? { NormListed(a.value); }
    if b.Some? { NormListed(b.value); }
    if a.Some? && b.Some? {
      var x, y := CanonicalJson.Norm(a.value), CanonicalJson.Norm(b.value);
      if Same(a.value, b.value) {
        CanonicalJson.SameGivesNorm(a.value, b.value);
      }
      if Print(Listed(x)) == Print(Listed(y)) {
        JsonDecode.PrintInjective(Listed(x), Listed(y));
        CanonicalJson.NormGivesSame(a.value, b.value);
      }
    } else if a.Some? {
      UndefinedIsNoJson(Listed(CanonicalJson.Norm(a.value)));
    } else if b.Some? {
      UndefinedIsNoJson(Listed(CanonicalJson.Norm(b.value)));
    }
  }

  lemma NormListed(j: Json)
    requires Valid(j)
    ensures Valid(Listed(CanonicalJson.Norm(j)))
    ensures CanonicalJson.Norm(Listed(CanonicalJson.Norm(j))) == CanonicalJson.Norm(j)
  {
    var n := CanonicalJson.Norm(j);
    CanonicalJson.NormValid(j);
    ListedSame(n);
    CanonicalJson.SameGivesNorm(n, Listed(n));
    CanonicalJson.NormIdempotent(j);
  }
}
