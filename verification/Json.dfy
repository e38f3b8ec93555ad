/**
 JSON values (RFC 8259) over UTF-16 code units, equality up to object key order, and the
 printer of canonicalJson: keys sorted by code unit at every depth.
*/
module Json {
  import Lex

  type Unit = n: int | 0 <= n < 0x10000
  type Text = seq<Unit>

  /** The code units of a text of ASCII characters. */
  function Ascii(s: string): (t: Text)
    requires forall i :: 0 <= i < |s| ==> s[i] < '\U{80}'
    ensures |t| == |s| && forall i :: 0 <= i < |s| ==> t[i] == s[i] as int
  {
    seq(|s|, i requires 0 <= i < |s| => s[i] as int)
  }

  /** A number is its ECMAScript text, which is unique for each finite value. */
  datatype Json =
    | Null
    | Bool(b: bool)
    | Num(token: Text)
    | Str(s: Text)
    | Arr(items: seq<Json>)
    | Obj(fields: seq<Field>)
  datatype Field = Field(key: Text, value: Json)

  const QUOTE: Unit := 0x22
  const COMMA: Unit := 0x2C
  const COLON: Unit := 0x3A
  const LBRACKET: Unit := 0x5B
  const BACKSLASH: Unit := 0x5C
  const RBRACKET: Unit := 0x5D
  const LBRACE: Unit := 0x7B
  const RBRACE: Unit := 0x7D

  /** Characters that occur in number texts: digits, sign, point, exponent. */
  predicate NumUnit(c: Unit) {
    0x30 <= c <= 0x39 || c == 0x2B || c == 0x2D || c == 0x2E || c == 0x65
  }

  predicate ValidToken(t: Text) {
    t != [] && forall i :: 0 <= i < |t| ==> NumUnit(t[i])
  }

  predicate DistinctKeys(fields: seq<Field>) {
    forall i, j :: 0 <= i < j < |fields| ==> fields[i].key != fields[j].key
  }

  ghost predicate Valid(j: Json) {
    match j
    case Num(token) => ValidToken(token)
    case Arr(items) => forall i :: 0 <= i < |items| ==> Valid(items[i])
    case Obj(fields) => DistinctKeys(fields) && forall i :: 0 <= i < |fields| ==> Valid(fields[i].value)
    case _ => true
  }

  /** Position of the first field with a key, or the number of fields. */
  function IndexOf(fields: seq<Field>, key: Text): (i: nat)
    ensures i <= |fields|
    ensures i < |fields| ==> fields[i].key == key
    ensures forall k :: 0 <= k < i ==> fields[k].key != key
  {
    if fields == [] || fields[0].key == key then 0 else 1 + IndexOf(fields[1..], key)
  }

  lemma IndexOfDistinct(fields: seq<Field>, i: nat)
    requires DistinctKeys(fields) && i < |fields|
    ensures IndexOf(fields, fields[i].key) == i
  {
    var k := IndexOf(fields, fields[i].key);
    assert k <= i;
  }

  /** Equal values up to the order of object keys, at every depth. */
  ghost predicate Same(a: Json, b: Json) {
    match (a, b)
    case (Arr(xs), Arr(ys)) => |xs| == |ys| && forall i :: 0 <= i < |xs| ==> Same(xs[i], ys[i])
    case (Obj(xs), Obj(ys)) =>
      && (forall i :: 0 <= i < |xs| ==> IndexOf(ys, xs[i].key) < |ys| && Same(xs[i].value, ys[IndexOf(ys, xs[i].key)].value))
      && (forall j :: 0 <= j < |ys| ==> IndexOf(xs, ys[j].key) < |xs|)
    case _ => a == b
  }

  // ---- strings ---------------------------------------------------------------------------------------

  predicate IsLead(c: Unit) { 0xD800 <= c <= 0xDBFF }
  predicate IsTrail(c: Unit) { 0xDC00 <= c <= 0xDFFF }

  function HexDigit(n: int): Unit
    requires 0 <= n < 16
  {
    if n < 10 then 0x30 + n else 0x57 + n
  }

  function UnicodeEscape(c: Unit): Text {
    [BACKSLASH, 0x75, HexDigit(c / 0x1000), HexDigit(c / 0x100 % 0x10), HexDigit(c / 0x10 % 0x10), HexDigit(c % 0x10)]
  }

  /** One code unit that is not half of a surrogate pair. */
  function EscapeUnit(c: Unit): Text {
    if c == QUOTE then [BACKSLASH, QUOTE]
    else if c == BACKSLASH then [BACKSLASH, BACKSLASH]
    else if c == 0x08 then [BACKSLASH, 0x62]
    else if c == 0x09 then [BACKSLASH, 0x74]
    else if c == 0x0A then [BACKSLASH, 0x6E]
    else if c == 0x0C then [BACKSLASH, 0x66]
    else if c == 0x0D then [BACKSLASH, 0x72]
    else if c < 0x20 || IsLead(c) || IsTrail(c) then UnicodeEscape(c)
    else [c]
  }

  /** JSON.stringify of the characters of a string: pairs stay, lone surrogates are escaped. */
  function Escape(s: Text): Text {
    if s == [] then []
    else if IsLead(s[0]) && |s| > 1 && IsTrail(s[1]) then [s[0], s[1]] + Escape(s[2..])
    else EscapeUnit(s[0]) + Escape(s[1..])
  }

  function Quote(s: Text): Text {
    [QUOTE] + Escape(s) + [QUOTE]
  }

  // ---- printing in the given order ---------------------------------------------------------------------

  const NULL_TEXT: Text := [0x6E, 0x75, 0x6C, 0x6C]
  const TRUE_TEXT: Text := [0x74, 0x72, 0x75, 0x65]
  const FALSE_TEXT: Text := [0x66, 0x61, 0x6C, 0x73, 0x65]

  function Print(j: Json): Text {
    match j
    case Null => NULL_TEXT
    case Bool(b) => if b then TRUE_TEXT else FALSE_TEXT
    case Num(token) => token
    case Str(s) => Quote(s)
    case Arr(items) => [LBRACKET] + PrintItems(items) + [RBRACKET]
    case Obj(fields) => [LBRACE] + PrintFields(fields) + [RBRACE]
  }

  function PrintItems(items: seq<Json>): Text {
    if items == [] then []
    else if |items| == 1 then Print(items[0])
    else Print(items[0]) + [COMMA] + PrintItems(items[1..])
  }

  function PrintFields(fields: seq<Field>): Text {
    if fields == [] then []
    else if |fields| == 1 then PrintField(fields[0])
    else PrintField(fields[0]) + [COMMA] + PrintFields(fields[1..])
  }

  function PrintField(f: Field): Text {
    Quote(f.key) + [COLON] + Print(f.value)
  }
}
