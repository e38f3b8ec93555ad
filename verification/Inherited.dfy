/**
 What JavaScript reads from a plain object: its own value under a key, or else what its prototype
 offers under that name. The prototype of an object literal is Object.prototype, whose members are
 functions, except that reading `__proto__` gives the prototype object itself.
*/
module Inherited {
  import opened Prelude
  import opened Json
  import opened JsonObjects
  import opened ReviewDigest

  /** A value as code sees it: a JSON value, undefined, or something inherited. */
  datatype Seen = Undefined | Own(json: Json) | Method(name: Text) | Prototype

  const PROTO: Text := Ascii("__proto__")

  const METHODS: seq<Text> := [
    Ascii("constructor"), Ascii("hasOwnProperty"), Ascii("isPrototypeOf"), Ascii("propertyIsEnumerable"),
    Ascii("toLocaleString"), Ascii("toString"), Ascii("valueOf"), Ascii("__defineGetter__"),
    Ascii("__defineSetter__"), Ascii("__lookupGetter__"), Ascii("__lookupSetter__")]

  predicate InheritedName(k: Text) { k == PROTO || k in METHODS }

  predicate IsObject(v: Seen) { v.Prototype? || (v.Own? && v.json.Obj?) }

  /** Own enumerable properties; Object.prototype has none. */
  function OwnFields(v: Seen): seq<Field>
    requires IsObject(v)
  {
    if v.Own? then v.json.fields else []
  }

  /** An absent own value is undefined. */
  function Shown(v: Option<Json>): Seen {
    if v.Some? then Own(v.value) else Undefined
  }

  /** v[k] */
  function Read(v: Seen, k: Text): Seen
    requires IsObject(v)
  {
    var own := Get(OwnFields(v), k);
    if own.Some? then Own(own.value)
    else if k == PROTO then (if v.Own? then Prototype else Own(Null))
    else if k in METHODS then Method(k)
    else Undefined
  }

  /** The text whose hash is reviewDigest: functions print like undefined, the prototype like an empty object. */
  function SeenDigest(v: Seen): Text {
    match v
    case Own(j) => DigestText(Some(j))
    case Prototype => [LBRACE, RBRACE]
    case _ => UNDEFINED_TEXT
  }

  /** Outside the inherited names, reading gives the own value or undefined. */
  lemma ReadPlain(fields: seq<Field>, k: Text)
    requires Get(fields, k).Some? || !InheritedName(k)
    ensures Read(Own(Obj(fields)), k) == Shown(Get(fields, k))
  {
  }
}
