/**
 canonicalJson: what it prints depends on a value only up to object key order, and nothing else
 of the value is lost. `Norm` is the value with all keys sorted.
*/
module CanonicalJson {
  import opened Prelude
  import opened Json
  import Lex
  import JsonDecode

  /** An object entry already printed. */
  datatype Entry = Entry(key: Text, text: Text)

  function CanonicalText(j: Json): Text {
    match j
    case Arr(items) => [LBRACKET] + CanonicalItems(items) + [RBRACKET]
    case Obj(fields) => [LBRACE] + JoinEntries(Entries(fields)) + [RBRACE]
    case _ => Print(j)
  }

  function CanonicalItems(items: seq<Json>): Text {
    if items == [] then []
    else if |items| == 1 then CanonicalText(items[0])
    else CanonicalText(items[0]) + [COMMA] + CanonicalItems(items[1..])
  }

  /** The printed entries of an object in key order. */
  function Entries(fields: seq<Field>): seq<Entry> {
    if fields == [] then []
    else InsertEntry(Entry(fields[0].key, CanonicalText(fields[0].value)), Entries(fields[1..]))
  }

  function InsertEntry(e: Entry, es: seq<Entry>): seq<Entry> {
    if es != [] && Lex.Less(es[0].key, e.key) then [es[0]] + InsertEntry(e, es[1..]) else [e] + es
  }

  function EntryText(e: Entry): Text {
    Quote(e.key) + [COLON] + e.text
  }

  function JoinEntries(es: seq<Entry>): Text {
    if es == [] then []
    else if |es| == 1 then EntryText(es[0])
    else EntryText(es[0]) + [COMMA] + JoinEntries(es[1..])
  }

  // ---- the sorted value --------------------------------------------------------------------------

  function Norm(j: Json): Json {
    match j
    case Arr(items) => Arr(NormItems(items))
    case Obj(fields) => Obj(NormFields(fields))
    case _ => j
  }

  function NormItems(items: seq<Json>): (r: seq<Json>)
    ensures |r| == |items|
    ensures forall i :: 0 <= i < |r| ==> r[i] == Norm(items[i])
  {
    if items == [] then [] else [Norm(items[0])] + NormItems(items[1..])
  }

  function NormFields(fields: seq<Field>): seq<Field> {
    if fields == [] then []
    else InsertField(Field(fields[0].key, Norm(fields[0].value)), NormFields(fields[1..]))
  }

  function InsertField(f: Field, fs: seq<Field>): seq<Field> {
    if fs != [] && Lex.Less(fs[0].key, f.key) then [fs[0]] + InsertField(f, fs[1..]) else [f] + fs
  }

  // ---- canonicalJson prints the sorted value ---------------------------------------------------------

  /** Entries are the printed form of fields, position by position. */
  ghost predicate PrintsAs(es: seq<Entry>, fs: seq<Field>) {
    |es| == |fs| && forall i :: 0 <= i < |es| ==> es[i].key == fs[i].key && es[i].text == Print(fs[i].value)
  }

  lemma {:induction false} InsertPrints(e: Entry, es: seq<Entry>, f: Field, fs: seq<Field>)
    requires PrintsAs(es, fs) && e.key == f.key && e.text == Print(f.value)
    ensures PrintsAs(InsertEntry(e, es), InsertField(f, fs))
  {
    if es != [] && Lex.Less(es[0].key, e.key) {
      InsertPrints(e, es[1..], f, fs[1..]);
    }
  }

  lemma {:induction false} JoinPrints(es: seq<Entry>, fs: seq<Field>)
    requires PrintsAs(es, fs)
    ensures JoinEntries(es) == PrintFields(fs)
  {
    if |es| > 1 { JoinPrints(es[1..], fs[1..]); }
  }

  lemma {:induction false} CanonicalPrintsNorm(j: Json)
    ensures CanonicalText(j) == Print(Norm(j))
    decreases j, 1
  {
    match j
    case Arr(items) => ItemsPrintNorm(items);
    case Obj(fields) =>
      EntriesPrintNorm(fields);
      JoinPrints(Entries(fields), NormFields(fields));
    case _ =>
  }

  lemma {:induction false} ItemsPrintNorm(items: seq<Json>)
    ensures CanonicalItems(items) == PrintItems(NormItems(items))
    decreases items, 0
  {
    if items != [] {
      CanonicalPrintsNorm(items[0]);
      ItemsPrintNorm(items[1..]);
      assert NormItems(items)[1..] == NormItems(items[1..]);
    }
  }

  lemma {:induction false} EntriesPrintNorm(fields: seq<Field>)
    ensures PrintsAs(Entries(fields), NormFields(fields))
    decreases fields, 0
  {
    if fields != [] {
      CanonicalPrintsNorm(fields[0].value);
      EntriesPrintNorm(fields[1..]);
      InsertPrints(Entry(fields[0].key, CanonicalText(fields[0].value)), Entries(fields[1..]),
                   Field(fields[0].key, Norm(fields[0].value)), NormFields(fields[1..]));
    }
  }

  // ---- the sorted value is a normal form ---------------------------------------------------------------

  ghost predicate SortedKeys(fs: seq<Field>) {
    forall i, j :: 0 <= i < j < |fs| ==> Lex.Less(fs[i].key, fs[j].key)
  }

  /** Every object, at every depth, has its keys in increasing code-unit order. */
  ghost predicate KeysInOrder(j: Json) {
    match j
    case Arr(items) => forall i :: 0 <= i < |items| ==> KeysInOrder(items[i])
    case Obj(fields) => SortedKeys(fields) && forall i :: 0 <= i < |fields| ==> KeysInOrder(fields[i].value)
    case _ => true
  }

  lemma {:induction false} InsertMembers(f: Field, fs: seq<Field>)
    ensures forall g :: g in InsertField(f, fs) <==> g == f || g in fs
  {
    if fs != [] && Lex.Less(fs[0].key, f.key) {
      InsertMembers(f, fs[1..]);
      assert fs == [fs[0]] + fs[1..];
    }
  }

  lemma {:induction false} InsertSorts(f: Field, fs: seq<Field>)
    requires SortedKeys(fs) && forall i :: 0 <= i < |fs| ==> fs[i].key != f.key
    ensures SortedKeys(InsertField(f, fs))
  {
    if fs == [] {
    } else if Lex.Less(fs[0].key, f.key) {
      InsertSorts(f, fs[1..]);
      InsertMembers(f, fs[1..]);
      var t := InsertField(f, fs[1..]);
      forall j | 0 <= j < |t| ensures Lex.Less(fs[0].key, t[j].key) { assert t[j] in t; }
    } else {
      Lex.Trichotomy(fs[0].key, f.key);
      forall j | 0 <= j < |fs| ensures Lex.Less(f.key, fs[j].key) {
        if j > 0 { Lex.Transitive(f.key, fs[0].key, fs[j].key); }
      }
    }
  }

  /** The sorted fields are the fields, normalised. */
  lemma {:induction false} NormFieldsMembers(fields: seq<Field>)
    ensures forall g :: g in NormFields(fields) <==>
              exists i :: 0 <= i < |fields| && g == Field(fields[i].key, Norm(fields[i].value))
  {
    if fields != [] {
      NormFieldsMembers(fields[1..]);
      var f := Field(fields[0].key, Norm(fields[0].value));
      InsertMembers(f, NormFields(fields[1..]));
      forall g ensures g in NormFields(fields) <==>
                       exists i :: 0 <= i < |fields| && g == Field(fields[i].key, Norm(fields[i].value))
      {
        if g in NormFields(fields) {
          if g == f { assert g == Field(fields[0].key, Norm(fields[0].value)); }
          else {
            var i :| 0 <= i < |fields[1..]| && g == Field(fields[1..][i].key, Norm(fields[1..][i].value));
            assert fields[1..][i] == fields[i + 1];
          }
        }
        if i :| 0 <= i < |fields| && g == Field(fields[i].key, Norm(fields[i].value)) {
          if i > 0 { assert fields[1..][i - 1] == fields[i]; }
        }
      }
    }
  }

  lemma {:induction false} NormFieldsSorted(fields: seq<Field>)
    requires DistinctKeys(fields)
    ensures SortedKeys(NormFields(fields))
  {
    if fields != [] {
      NormFieldsSorted(fields[1..]);
      NormFieldsMembers(fields[1..]);
      var rest := NormFields(fields[1..]);
      forall i | 0 <= i < |rest| ensures rest[i].key != fields[0].key {
        assert rest[i] in rest;
        var k :| 0 <= k < |fields[1..]| && rest[i] == Field(fields[1..][k].key, Norm(fields[1..][k].value));
        assert fields[1..][k] == fields[k + 1];
      }
      InsertSorts(Field(fields[0].key, Norm(fields[0].value)), rest);
    }
  }

  lemma SortedDistinct(fs: seq<Field>)
    requires SortedKeys(fs)
    ensures DistinctKeys(fs)
  {
    forall i, j | 0 <= i < j < |fs| ensures fs[i].key != fs[j].key {
      Lex.Irreflexive(fs[i].key);
    }
  }

  lemma SameMembersEmpty<T>(a: seq<T>, b: seq<T>)
    requires forall g :: g in a <==> g in b
    ensures a == [] <==> b == []
  {
    assert a != [] ==> a[0] in b;
    assert b != [] ==> b[0] in a;
  }

  /** Sorted lists with the same members are equal. */
  lemma {:induction false} SortedUnique(a: seq<Field>, b: seq<Field>)
    requires SortedKeys(a) && SortedKeys(b) && forall g :: g in a <==> g in b
    ensures a == b
  {
    SameMembersEmpty(a, b);
    if a != [] {
      assert a[0] in b && b[0] in a;
      var i :| 0 <= i < |b| && b[i] == a[0];
      var j :| 0 <= j < |a| && a[j] == b[0];
      if i > 0 && j > 0 {
        Lex.Trichotomy(a[0].key, b[0].key);
      }
      assert a[0] == b[0];
      SortedTail(a, b);
      SortedUnique(a[1..], b[1..]);
      assert a == [a[0]] + a[1..] && b == [b[0]] + b[1..];
    }
  }

  lemma HeadNotInTail(a: seq<Field>)
    requires a != [] && SortedKeys(a)
    ensures a[0] !in a[1..]
    ensures forall g :: g in a <==> g == a[0] || g in a[1..]
  {
    Lex.Irreflexive(a[0].key);
    assert a == [a[0]] + a[1..];
  }

  lemma SortedTail(a: seq<Field>, b: seq<Field>)
    requires a != [] && b != [] && a[0] == b[0]
    requires SortedKeys(a) && SortedKeys(b) && forall g :: g in a <==> g in b
    ensures SortedKeys(a[1..]) && SortedKeys(b[1..]) && forall g :: g in a[1..] <==> g in b[1..]
  {
    HeadNotInTail(a);
    HeadNotInTail(b);
  }

  lemma {:induction false} NormValid(j: Json)
    requires Valid(j)
    ensures Valid(Norm(j)) && KeysInOrder(Norm(j))
  {
    match j
    case Arr(items) =>
      forall i | 0 <= i < |items| ensures Valid(NormItems(items)[i]) && KeysInOrder(NormItems(items)[i]) { NormValid(items[i]); }
    case Obj(fields) =>
      NormFieldsSorted(fields);
      SortedDistinct(NormFields(fields));
      NormFieldsMembers(fields);
      forall i | 0 <= i < |NormFields(fields)|
        ensures Valid(NormFields(fields)[i].value) && KeysInOrder(NormFields(fields)[i].value)
      {
        assert NormFields(fields)[i] in NormFields(fields);
        var k :| 0 <= k < |fields| && NormFields(fields)[i] == Field(fields[k].key, Norm(fields[k].value));
        NormValid(fields[k].value);
      }
    case _ =>
  }

  /** Values that agree up to key order have one normal form. */
  lemma {:induction false} SameGivesNorm(a: Json, b: Json)
    requires Valid(a) && Valid(b) && Same(a, b)
    ensures Norm(a) == Norm(b)
    decreases a, 2
  {
    match (a, b)
    case (Arr(xs), Arr(ys)) =>
      forall i | 0 <= i < |xs| ensures NormItems(xs)[i] == NormItems(ys)[i] { SameGivesNorm(xs[i], ys[i]); }
    case (Obj(xs), Obj(ys)) =>
      FieldsGiveNorm(xs, ys);
    case _ =>
  }

  lemma {:induction false} FieldsGiveNorm(xs: seq<Field>, ys: seq<Field>)
    requires Valid(Obj(xs)) && Valid(Obj(ys)) && Same(Obj(xs), Obj(ys))
    ensures NormFields(xs) == NormFields(ys)
    decreases Obj(xs), 1
  {
    NormFieldsSorted(xs);
    NormFieldsSorted(ys);
    forall g ensures g in NormFields(xs) <==> g in NormFields(ys) {
      if g in NormFields(xs) { FieldsForward(xs, ys, g); }
      if g in NormFields(ys) { FieldsBackward(xs, ys, g); }
    }
    SortedUnique(NormFields(xs), NormFields(ys));
  }

  /** Where a sorted field came from. */
  lemma NormFieldSource(fields: seq<Field>, g: Field) returns (i: nat)
    requires g in NormFields(fields)
    ensures i < |fields| && g == Field(fields[i].key, Norm(fields[i].value))
  {
    NormFieldsMembers(fields);
    i :| 0 <= i < |fields| && g == Field(fields[i].key, Norm(fields[i].value));
  }

  lemma NormFieldImage(fields: seq<Field>, i: nat)
    requires i < |fields|
    ensures Field(fields[i].key, Norm(fields[i].value)) in NormFields(fields)
  {
    NormFieldsMembers(fields);
  }

  lemma ValueAt(fields: seq<Field>, i: nat)
    requires Valid(Obj(fields)) && i < |fields|
    ensures Valid(fields[i].value) && fields[i].value < fields[i] && fields[i].value < Obj(fields)
  {
  }

  /** The entry of the other object that a field agrees with. */
  lemma PartnerRight(xs: seq<Field>, ys: seq<Field>, i: nat) returns (j: nat)
    requires Same(Obj(xs), Obj(ys)) && i < |xs|
    ensures j < |ys| && xs[i].key == ys[j].key && Same(xs[i].value, ys[j].value)
  {
    j := IndexOf(ys, xs[i].key);
  }

  lemma PartnerLeft(xs: seq<Field>, ys: seq<Field>, j: nat) returns (i: nat)
    requires Same(Obj(xs), Obj(ys)) && DistinctKeys(ys) && j < |ys|
    ensures i < |xs| && xs[i].key == ys[j].key && Same(xs[i].value, ys[j].value)
  {
    i := IndexOf(xs, ys[j].key);
    IndexOfDistinct(ys, j);
  }

  lemma {:induction false} FieldsForward(xs: seq<Field>, ys: seq<Field>, g: Field)
    requires Valid(Obj(xs)) && Valid(Obj(ys)) && Same(Obj(xs), Obj(ys)) && g in NormFields(xs)
    ensures g in NormFields(ys)
    decreases Obj(xs), 0
  {
    var i := NormFieldSource(xs, g);
    var j := PartnerRight(xs, ys, i);
    ValueAt(xs, i);
    ValueAt(ys, j);
    SameGivesNorm(xs[i].value, ys[j].value);
    NormFieldImage(ys, j);
  }

  lemma {:induction false} FieldsBackward(xs: seq<Field>, ys: seq<Field>, g: Field)
    requires Valid(Obj(xs)) && Valid(Obj(ys)) && Same(Obj(xs), Obj(ys)) && g in NormFields(ys)
    ensures g in NormFields(xs)
    decreases Obj(xs), 0
  {
    var j := NormFieldSource(ys, g);
    var i := PartnerLeft(xs, ys, j);
    ValueAt(xs, i);
    ValueAt(ys, j);
    SameGivesNorm(xs[i].value, ys[j].value);
    NormFieldImage(xs, i);
  }

  /** Values with one normal form agree up to key order. */
  lemma {:induction false} NormGivesSame(a: Json, b: Json)
    requires Valid(a) && Valid(b) && Norm(a) == Norm(b)
    ensures Same(a, b)
    decreases a, 2
  {
    match (a, b)
    case (Arr(xs), Arr(ys)) => NormGivesSameItems(xs, ys);
    case (Obj(xs), Obj(ys)) => NormGivesSameFields(xs, ys);
    case _ =>
  }

  lemma {:induction false} NormGivesSameItems(xs: seq<Json>, ys: seq<Json>)
    requires Valid(Arr(xs)) && Valid(Arr(ys)) && NormItems(xs) == NormItems(ys)
    ensures Same(Arr(xs), Arr(ys))
    decreases xs, 1
  {
    forall i | 0 <= i < |xs| ensures Same(xs[i], ys[i]) {
      assert NormItems(xs)[i] == NormItems(ys)[i];
      NormGivesSame(xs[i], ys[i]);
    }
  }

  lemma {:induction false} NormGivesSameFields(xs: seq<Field>, ys: seq<Field>)
    requires Valid(Obj(xs)) && Valid(Obj(ys)) && NormFields(xs) == NormFields(ys)
    ensures Same(Obj(xs), Obj(ys))
    decreases xs, 1
  {
    forall i | 0 <= i < |xs|
      ensures IndexOf(ys, xs[i].key) < |ys| && Same(xs[i].value, ys[IndexOf(ys, xs[i].key)].value)
    {
      var j := PartnerOf(xs, ys, i);
      IndexOfDistinct(ys, j);
    }
    forall j | 0 <= j < |ys| ensures IndexOf(xs, ys[j].key) < |xs| {
      NormFieldImage(ys, j);
      var i := NormFieldSource(xs, Field(ys[j].key, Norm(ys[j].value)));
    }
  }

  lemma {:induction false} PartnerOf(xs: seq<Field>, ys: seq<Field>, i: nat) returns (j: nat)
    requires Valid(Obj(xs)) && Valid(Obj(ys)) && NormFields(xs) == NormFields(ys) && i < |xs|
    ensures j < |ys| && xs[i].key == ys[j].key && Same(xs[i].value, ys[j].value)
    decreases xs, 0
  {
    NormFieldImage(xs, i);
    j := NormFieldSource(ys, Field(xs[i].key, Norm(xs[i].value)));
    NormGivesSame(xs[i].value, ys[j].value);
  }

  // ---- theorems -------------------------------------------------------------------------------------------

  /** Two values print the same canonical text exactly when they are equal up to object key order. */
  lemma CanonicalTextDecides(a: Json, b: Json)
    requires Valid(a) && Valid(b)
    ensures CanonicalText(a) == CanonicalText(b) <==> Same(a, b)
  {
    CanonicalPrintsNorm(a);
    CanonicalPrintsNorm(b);
    NormValid(a);
    NormValid(b);
    if Same(a, b) { SameGivesNorm(a, b); }
    if CanonicalText(a) == CanonicalText(b) {
      JsonDecode.PrintInjective(Norm(a), Norm(b));
      NormGivesSame(a, b);
    }
  }

  /** Decoding canonical text yields the value itself up to key order, with its keys sorted throughout. */
  lemma CanonicalRoundTrip(j: Json)
    requires Valid(j)
    ensures JsonDecode.ReadValue(CanonicalText(j)) == JsonDecode.Got(Norm(j), [])
    ensures Same(j, Norm(j)) && KeysInOrder(Norm(j))
  {
    CanonicalPrintsNorm(j);
    NormValid(j);
    JsonDecode.ValueRoundTrip(Norm(j), []);
    assert Print(Norm(j)) + [] == Print(Norm(j));
    NormIdempotent(j);
    NormGivesSame(j, Norm(j));
  }

  lemma {:induction false} NormIdempotent(j: Json)
    requires Valid(j)
    ensures Norm(Norm(j)) == Norm(j)
  {
    match j
    case Arr(items) =>
      forall i | 0 <= i < |items| ensures NormItems(NormItems(items))[i] == NormItems(items)[i] { NormIdempotent(items[i]); }
    case Obj(fields) =>
      var fs := NormFields(fields);
      NormFieldsSorted(fields);
      SortedDistinct(fs);
      NormFieldsSorted(fs);
      NormFieldsMembers(fields);
      NormFieldsMembers(fs);
      forall k | 0 <= k < |fs| ensures Norm(fs[k].value) == fs[k].value {
        assert fs[k] in fs;
        var i :| 0 <= i < |fields| && fs[k] == Field(fields[i].key, Norm(fields[i].value));
        NormIdempotent(fields[i].value);
      }
      forall g ensures g in NormFields(fs) <==> g in fs {
        if g in fs { var k :| 0 <= k < |fs| && fs[k] == g; }
      }
      SortedUnique(NormFields(fs), fs);
    case _ =>
  }
}
