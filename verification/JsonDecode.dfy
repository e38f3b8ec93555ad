/**
 A decoder for the printed JSON of canonicalJson, and the round trips that make printing injective.
 Strings come back through their escapes, surrogate pairs and lone surrogates included; a number ends
 where no number character follows; arrays and objects end at their closing bracket. Every reader is
 given a text with an arbitrary rest behind the value and hands that rest back.
*/
module JsonDecode {
  import opened Prelude
  import opened Json

  /** A decoded prefix and the text after it. */
  datatype Read<T> = Fail | Got(value: T, rest: Text)

  function UnhexDigit(c: Unit): int {
    if 0x30 <= c <= 0x39 then c - 0x30 else if 0x61 <= c <= 0x66 then c - 0x57 else -1
  }

  function ReadHex(t: Text): Read<Unit>
    ensures ReadHex(t).Got? ==> |ReadHex(t).rest| < |t|
  {
    if |t| < 4 then Fail
    else
      var a, b, c, d := UnhexDigit(t[0]), UnhexDigit(t[1]), UnhexDigit(t[2]), UnhexDigit(t[3]);
      if a < 0 || b < 0 || c < 0 || d < 0 then Fail
      else Got(a * 0x1000 + b * 0x100 + c * 0x10 + d, t[4..])
  }

  /** One code unit of a string body. */
  function ReadUnit(t: Text): Read<Unit>
    ensures ReadUnit(t).Got? ==> |ReadUnit(t).rest| < |t|
  {
    if t == [] || t[0] == '"' as int then Fail
    else if t[0] != '\\' as int then Got(t[0], t[1..])
    else if |t| < 2 then Fail
    else if t[1] == '"' as int || t[1] == '\\' as int then Got(t[1], t[2..])
    else if t[1] == 0x62 then Got(0x08, t[2..])
    else if t[1] == 0x74 then Got(0x09, t[2..])
    else if t[1] == 0x6E then Got(0x0A, t[2..])
    else if t[1] == 0x66 then Got(0x0C, t[2..])
    else if t[1] == 0x72 then Got(0x0D, t[2..])
    else if t[1] == 0x75 then ReadHex(t[2..])
    else Fail
  }

  /** A string body and its closing quote. */
  function ReadString(t: Text): Read<Text>
    ensures ReadString(t).Got? ==> |ReadString(t).rest| < |t|
    decreases |t|
  {
    if t == [] then Fail
    else if t[0] == '"' as int then Got([], t[1..])
    else
      var u := ReadUnit(t);
      if u.Fail? then Fail
      else
        var s := ReadString(u.rest);
        if s.Fail? then Fail else Got([u.value] + s.value, s.rest)
  }

  function NumberLength(t: Text): (n: nat)
    ensures n <= |t|
  {
    if t != [] && NumUnit(t[0]) then 1 + NumberLength(t[1..]) else 0
  }

  function ReadLiteral(t: Text, literal: Text, value: Json): Read<Json> {
    if |literal| <= |t| && t[..|literal|] == literal then Got(value, t[|literal|..]) else Fail
  }

  function ReadValue(t: Text): Read<Json>
    ensures ReadValue(t).Got? ==> |ReadValue(t).rest| < |t|
    decreases |t|, 0
  {
    if t == [] then Fail
    else if t[0] == '"' as int then
      var s := ReadString(t[1..]);
      if s.Fail? then Fail else Got(Str(s.value), s.rest)
    else if t[0] == '[' as int then
      if |t| > 1 && t[1] == ']' as int then Got(Arr([]), t[2..])
      else
        var items := ReadItems(t[1..]);
        if items.Fail? then Fail else Got(Arr(items.value), items.rest)
    else if t[0] == '{' as int then
      if |t| > 1 && t[1] == '}' as int then Got(Obj([]), t[2..])
      else
        var fields := ReadFields(t[1..]);
        if fields.Fail? then Fail else Got(Obj(fields.value), fields.rest)
    else if NumUnit(t[0]) then
      Got(Num(t[..NumberLength(t)]), t[NumberLength(t)..])
    else if t[0] == 'n' as int then ReadLiteral(t, Ascii("null"), Null)
    else if t[0] == 't' as int then ReadLiteral(t, Ascii("true"), Bool(true))
    else ReadLiteral(t, Ascii("false"), Bool(false))
  }

  /** One or more items and the closing bracket. */
  function ReadItems(t: Text): Read<seq<Json>>
    ensures ReadItems(t).Got? ==> |ReadItems(t).rest| < |t|
    decreases |t|, 1
  {
    var v := ReadValue(t);
    if v.Fail? || v.rest == [] then Fail
    else if v.rest[0] == ']' as int then Got([v.value], v.rest[1..])
    else if v.rest[0] != ',' as int then Fail
    else
      var more := ReadItems(v.rest[1..]);
      if more.Fail? then Fail else Got([v.value] + more.value, more.rest)
  }

  /** One or more fields and the closing brace. */
  function ReadFields(t: Text): Read<seq<Field>>
    ensures ReadFields(t).Got? ==> |ReadFields(t).rest| < |t|
    decreases |t|, 2
  {
    var f := ReadField(t);
    if f.Fail? || f.rest == [] then Fail
    else if f.rest[0] == '}' as int then Got([f.value], f.rest[1..])
    else if f.rest[0] != ',' as int then Fail
    else
      var more := ReadFields(f.rest[1..]);
      if more.Fail? then Fail else Got([f.value] + more.value, more.rest)
  }

  function ReadField(t: Text): Read<Field>
    ensures ReadField(t).Got? ==> |ReadField(t).rest| < |t|
    decreases |t|, 1
  {
    if t == [] || t[0] != '"' as int then Fail
    else
      var key := ReadString(t[1..]);
      if key.Fail? || key.rest == [] || key.rest[0] != ':' as int then Fail
      else
        var v := ReadValue(key.rest[1..]);
        if v.Fail? then Fail else Got(Field(key.value, v.value), v.rest)
  }

  // ---- the decoder inverts the printer ------------------------------------------------------------------

  lemma HexDigitRoundTrip(n: int)
    requires 0 <= n < 16
    ensures UnhexDigit(HexDigit(n)) == n
  {
  }

  lemma FourDigits(c: Unit)
    ensures 0 <= c / 0x1000 < 16
    ensures c == (c / 0x1000) * 0x1000 + (c / 0x100 % 0x10) * 0x100 + (c / 0x10 % 0x10) * 0x10 + c % 0x10
  {
  }

  lemma HexRoundTrip(c: Unit, rest: Text)
    ensures ReadHex([HexDigit(c / 0x1000), HexDigit(c / 0x100 % 0x10), HexDigit(c / 0x10 % 0x10), HexDigit(c % 0x10)] + rest)
            == Got(c, rest)
  {
    var h, i, j, k := c / 0x1000, c / 0x100 % 0x10, c / 0x10 % 0x10, c % 0x10;
    FourDigits(c);
    HexDigitRoundTrip(h);
    HexDigitRoundTrip(i);
    HexDigitRoundTrip(j);
    HexDigitRoundTrip(k);
    FourRead(HexDigit(h), HexDigit(i), HexDigit(j), HexDigit(k), rest);
  }

  lemma FourRead(a: Unit, b: Unit, c: Unit, d: Unit, rest: Text)
    requires UnhexDigit(a) >= 0 && UnhexDigit(b) >= 0 && UnhexDigit(c) >= 0 && UnhexDigit(d) >= 0
    ensures ReadHex([a, b, c, d] + rest)
            == Got(UnhexDigit(a) * 0x1000 + UnhexDigit(b) * 0x100 + UnhexDigit(c) * 0x10 + UnhexDigit(d), rest)
  {
    assert ([a, b, c, d] + rest)[4..] == rest;
  }

  lemma UnitRoundTrip(c: Unit, rest: Text)
    ensures ReadUnit(EscapeUnit(c) + rest) == Got(c, rest)
    ensures (EscapeUnit(c) + rest)[0] != QUOTE
  {
    var t := EscapeUnit(c) + rest;
    if |EscapeUnit(c)| == 6 {
      HexRoundTrip(c, rest);
      assert t[2..] == [HexDigit(c / 0x1000), HexDigit(c / 0x100 % 0x10), HexDigit(c / 0x10 % 0x10), HexDigit(c % 0x10)] + rest;
    } else if |EscapeUnit(c)| == 2 {
      assert t[2..] == rest;
    } else {
      assert t[1..] == rest;
    }
  }

  /** A raw unit in front of a decodable tail. */
  lemma RawUnit(c: Unit, tail: Text, s: Text, rest: Text)
    requires c != QUOTE && c != BACKSLASH && ReadString(tail) == Got(s, rest)
    ensures ReadString([c] + tail) == Got([c] + s, rest)
  {
    assert ([c] + tail)[1..] == tail;
  }

  predicate StartsWithPair(s: Text) {
    |s| > 1 && IsLead(s[0]) && IsTrail(s[1])
  }

  lemma EscapeSplits(s: Text, x: Text)
    requires s != []
    ensures StartsWithPair(s) ==> Escape(s) + x == [s[0]] + ([s[1]] + (Escape(s[2..]) + x))
    ensures !StartsWithPair(s) ==> Escape(s) + x == EscapeUnit(s[0]) + (Escape(s[1..]) + x)
  {
    if StartsWithPair(s) {
      var e := Escape(s[2..]);
      assert Escape(s) == [s[0], s[1]] + e;
      Assoc([s[0], s[1]], e, x);
      assert [s[0], s[1]] == [s[0]] + [s[1]];
      Assoc([s[0]], [s[1]], e + x);
    } else {
      Assoc(EscapeUnit(s[0]), Escape(s[1..]), x);
    }
  }

  lemma {:induction false} StringRoundTrip(s: Text, rest: Text)
    ensures ReadString(Escape(s) + ([QUOTE] + rest)) == Got(s, rest)
    decreases |s|
  {
    var x := [QUOTE] + rest;
    if s == [] {
      assert Escape(s) + x == x && x[1..] == rest;
    } else if StartsWithPair(s) {
      StringRoundTrip(s[2..], rest);
      EscapeSplits(s, x);
      RawUnit(s[1], Escape(s[2..]) + x, s[2..], rest);
      RawUnit(s[0], [s[1]] + (Escape(s[2..]) + x), [s[1]] + s[2..], rest);
      assert s == [s[0]] + ([s[1]] + s[2..]);
    } else {
      StringRoundTrip(s[1..], rest);
      EscapeSplits(s, x);
      EscapedUnit(s[0], Escape(s[1..]) + x, s[1..], rest);
      assert s == [s[0]] + s[1..];
    }
  }

  /** An escaped unit in front of a decodable tail. */
  lemma EscapedUnit(c: Unit, tail: Text, s: Text, rest: Text)
    requires ReadString(tail) == Got(s, rest)
    ensures ReadString(EscapeUnit(c) + tail) == Got([c] + s, rest)
  {
    UnitRoundTrip(c, tail);
  }

  /** The text after a value does not continue a number. */
  predicate Delimited(rest: Text) {
    rest == [] || !NumUnit(rest[0])
  }

  lemma {:induction false} NumberRoundTrip(token: Text, rest: Text)
    requires (forall i :: 0 <= i < |token| ==> NumUnit(token[i])) && Delimited(rest)
    ensures NumberLength(token + rest) == |token|
  {
    if token == [] {
      assert token + rest == rest;
    } else {
      assert (token + rest)[1..] == token[1..] + rest;
      NumberRoundTrip(token[1..], rest);
    }
  }

  lemma FirstUnit(j: Json)
    requires Valid(j)
    ensures |Print(j)| > 0 && Print(j)[0] != RBRACKET
  {
  }

  lemma QuotedTail(e: Text, rest: Text)
    ensures ([QUOTE] + e + [QUOTE] + rest)[1..] == e + ([QUOTE] + rest)
  {
  }

  lemma {:induction false} ValueRoundTrip(j: Json, rest: Text)
    requires Valid(j) && Delimited(rest)
    ensures ReadValue(Print(j) + rest) == Got(j, rest)
    decreases j, 1
  {
    var t := Print(j) + rest;
    match j
    case Null => assert t[..4] == NULL_TEXT && t[4..] == rest;
    case Bool(b) => BoolRoundTrip(b, rest);
    case Num(token) =>
      NumberRoundTrip(token, rest);
      assert t[..|token|] == token && t[|token|..] == rest;
    case Str(s) =>
      StringRoundTrip(s, rest);
      QuotedTail(Escape(s), rest);
    case Arr(items) => ArrayRoundTrip(items, rest);
    case Obj(fields) => ObjectRoundTrip(fields, rest);
  }

  lemma BoolRoundTrip(b: bool, rest: Text)
    ensures ReadValue(Print(Bool(b)) + rest) == Got(Bool(b), rest)
  {
    var t := Print(Bool(b)) + rest;
    if b {
      assert t[..4] == TRUE_TEXT && t[4..] == rest;
    } else {
      assert t[..5] == FALSE_TEXT && t[5..] == rest;
    }
  }

  lemma {:induction false} ArrayRoundTrip(items: seq<Json>, rest: Text)
    requires Valid(Arr(items))
    ensures ReadValue(Print(Arr(items)) + rest) == Got(Arr(items), rest)
    decreases items, 1
  {
    var t := Print(Arr(items)) + rest;
    if items == [] {
      assert t[2..] == rest;
    } else {
      ItemsRoundTrip(items, rest);
      assert t[1..] == PrintItems(items) + [RBRACKET] + rest;
      FirstUnit(items[0]);
      assert PrintItems(items)[0] == Print(items[0])[0];
    }
  }

  lemma {:induction false} ItemsRoundTrip(items: seq<Json>, rest: Text)
    requires items != [] && forall i :: 0 <= i < |items| ==> Valid(items[i])
    ensures ReadItems(PrintItems(items) + [RBRACKET] + rest) == Got(items, rest)
    decreases items, 0
  {
    var t := PrintItems(items) + [RBRACKET] + rest;
    if |items| == 1 {
      assert t == Print(items[0]) + ([RBRACKET] + rest);
      ValueRoundTrip(items[0], [RBRACKET] + rest);
      assert items == [items[0]];
    } else {
      var tail := PrintItems(items[1..]) + [RBRACKET] + rest;
      assert t == Print(items[0]) + ([COMMA] + tail);
      ValueRoundTrip(items[0], [COMMA] + tail);
      ItemsRoundTrip(items[1..], rest);
      assert ([COMMA] + tail)[1..] == tail;
      assert items == [items[0]] + items[1..];
    }
  }

  lemma {:induction false} ObjectRoundTrip(fields: seq<Field>, rest: Text)
    requires Valid(Obj(fields))
    ensures ReadValue(Print(Obj(fields)) + rest) == Got(Obj(fields), rest)
    decreases fields, 2
  {
    var t := Print(Obj(fields)) + rest;
    if fields == [] {
      assert t[2..] == rest;
    } else {
      FieldsRoundTrip(fields, rest);
      BraceTail(PrintFields(fields), rest);
      assert PrintFields(fields)[0] == PrintField(fields[0])[0] == QUOTE;
    }
  }

  lemma BraceTail(p: Text, rest: Text)
    ensures ([LBRACE] + p + [RBRACE] + rest)[1..] == p + [RBRACE] + rest
    ensures p != [] ==> ([LBRACE] + p + [RBRACE] + rest)[1] == p[0]
  {
  }

  /** A field, a comma and a decodable list of further fields. */
  lemma FieldThenMore(t: Text, f: Field, tail: Text, more: seq<Field>, rest: Text)
    requires ReadField(t) == Got(f, [COMMA] + tail) && ReadFields(tail) == Got(more, rest)
    ensures ReadFields(t) == Got([f] + more, rest)
  {
    assert ([COMMA] + tail)[1..] == tail;
  }

  lemma {:induction false} FieldsRoundTrip(fields: seq<Field>, rest: Text)
    requires fields != [] && forall i :: 0 <= i < |fields| ==> Valid(fields[i].value)
    ensures ReadFields(PrintFields(fields) + [RBRACE] + rest) == Got(fields, rest)
    decreases fields, 1
  {
    var t := PrintFields(fields) + [RBRACE] + rest;
    if |fields| == 1 {
      Regroup(PrintField(fields[0]), [RBRACE], rest);
      FieldRoundTrip(fields[0], [RBRACE] + rest);
      assert fields == [fields[0]];
    } else {
      var tail := PrintFields(fields[1..]) + [RBRACE] + rest;
      RegroupTail(PrintField(fields[0]), PrintFields(fields[1..]), rest);
      FieldRoundTrip(fields[0], [COMMA] + tail);
      FieldsRoundTrip(fields[1..], rest);
      FieldThenMore(t, fields[0], tail, fields[1..], rest);
      assert fields == [fields[0]] + fields[1..];
    }
  }

  lemma Regroup(a: Text, b: Text, c: Text)
    ensures a + b + c == a + (b + c)
  {
  }

  lemma RegroupTail(a: Text, b: Text, rest: Text)
    ensures a + [COMMA] + b + [RBRACE] + rest == a + ([COMMA] + (b + [RBRACE] + rest))
  {
  }

  /** A key, a colon and a decodable value. */
  lemma KeyThenValue(t: Text, key: Text, tail: Text, value: Json, rest: Text)
    requires ReadString(t) == Got(key, [COLON] + tail) && ReadValue(tail) == Got(value, rest)
    ensures ReadField([QUOTE] + t) == Got(Field(key, value), rest)
  {
    assert ([QUOTE] + t)[1..] == t && ([COLON] + tail)[1..] == tail;
  }

  lemma {:induction false} FieldRoundTrip(f: Field, rest: Text)
    requires Valid(f.value) && Delimited(rest)
    ensures ReadField(PrintField(f) + rest) == Got(f, rest)
    decreases f, 2
  {
    var tail := Print(f.value) + rest;
    var t := Escape(f.key) + ([QUOTE] + ([COLON] + tail));
    StringRoundTrip(f.key, [COLON] + tail);
    ValueRoundTrip(f.value, rest);
    KeyThenValue(t, f.key, tail, f.value, rest);
    FieldText(Escape(f.key), Print(f.value), rest);
  }

  lemma FieldText(e: Text, p: Text, rest: Text)
    ensures ([QUOTE] + e + [QUOTE]) + [COLON] + p + rest == [QUOTE] + (e + ([QUOTE] + ([COLON] + (p + rest))))
  {
  }

  /** Printing in a given key order loses nothing. */
  lemma PrintInjective(a: Json, b: Json)
    requires Valid(a) && Valid(b) && Print(a) == Print(b)
    ensures a == b
  {
    ValueRoundTrip(a, []);
    ValueRoundTrip(b, []);
    assert Print(a) + [] == Print(b) + [];
  }

  // ---- what is escaped ------------------------------------------------------------------------------------

  predicate Lead(c: Unit) { 0xD800 <= c <= 0xDBFF }
  predicate Trail(c: Unit) { 0xDC00 <= c <= 0xDFFF }

  /** Text without control characters whose surrogates all stand in pairs. */
  predicate WellFormed(t: Text) {
    if t == [] then true
    else if Lead(t[0]) then |t| > 1 && Trail(t[1]) && WellFormed(t[2..])
    else t[0] >= 0x20 && !Trail(t[0]) && WellFormed(t[1..])
  }

  /**
   Outside surrogate pairs a unit stands for itself exactly if it is no control character, quote,
   backslash or surrogate, and the seven units with a short escape have it; ECMAScript, QuoteJSONString.
  */
  lemma EscapeUnitMeans(c: Unit)
    ensures EscapeUnit(c) == [c] <==> c >= 0x20 && c != '"' as int && c != '\\' as int && !Lead(c) && !Trail(c)
    ensures |EscapeUnit(c)| == 2 <==> c in {0x08, 0x09, 0x0A, 0x0C, 0x0D, 0x22, 0x5C}
    ensures forall i :: 0 <= i < |EscapeUnit(c)| ==> EscapeUnit(c)[i] >= 0x20 && !Lead(EscapeUnit(c)[i]) && !Trail(EscapeUnit(c)[i])
  {
  }

  lemma {:induction false} PlainWellFormed(a: Text, t: Text)
    requires forall i :: 0 <= i < |a| ==> a[i] >= 0x20 && !Lead(a[i]) && !Trail(a[i])
    ensures WellFormed(a + t) <==> WellFormed(t)
  {
    if a == [] {
      assert a + t == t;
    } else {
      assert (a + t)[1..] == a[1..] + t;
      PlainWellFormed(a[1..], t);
    }
  }

  /** A printed string is well-formed, and its surrogate pairs are printed as they are. */
  lemma {:induction false} EscapeWellFormed(s: Text)
    ensures WellFormed(Escape(s))
    ensures |s| > 1 && Lead(s[0]) && Trail(s[1]) ==> Escape(s) == s[..2] + Escape(s[2..])
    ensures s != [] && !(|s| > 1 && Lead(s[0]) && Trail(s[1])) ==> Escape(s) == EscapeUnit(s[0]) + Escape(s[1..])
  {
    if s != [] {
      if |s| > 1 && Lead(s[0]) && Trail(s[1]) {
        EscapeWellFormed(s[2..]);
        assert Escape(s)[2..] == Escape(s[2..]) && s[..2] == [s[0], s[1]];
      } else {
        EscapeWellFormed(s[1..]);
        EscapeUnitMeans(s[0]);
        PlainWellFormed(EscapeUnit(s[0]), Escape(s[1..]));
      }
    }
  }
}
