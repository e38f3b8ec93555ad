/**
 Direct-hub envelopes: what the signature covers. The signer and the verifier read the same seven
 fields of an object, absent fields are dropped, and the canonical text is authenticated.
*/
module Envelope {
  import opened Prelude
  import opened Json
  import opened JsonObjects
  import CanonicalJson

  /** An HMAC-SHA-256 value, taken to be injective in the token and the message. */
  datatype Mac = Mac(token: Text, message: Text)

  function SignedKeys(): seq<Text> {
    [VERSION, MESSAGE_ID, SOURCE_SITE_ID, SOURCE_LABEL, SENT_AT, OPERATION, PAYLOAD]
  }

  const VERSION: Text := [0x76, 0x65, 0x72, 0x73, 0x69, 0x6F, 0x6E]
  const MESSAGE_ID: Text := [0x6D, 0x65, 0x73, 0x73, 0x61, 0x67, 0x65, 0x49, 0x64]
  const SOURCE_SITE_ID: Text := [0x73, 0x6F, 0x75, 0x72, 0x63, 0x65, 0x53, 0x69, 0x74, 0x65, 0x49, 0x64]
  const SOURCE_LABEL: Text := [0x73, 0x6F, 0x75, 0x72, 0x63, 0x65, 0x4C, 0x61, 0x62, 0x65, 0x6C]
  const SENT_AT: Text := [0x73, 0x65, 0x6E, 0x74, 0x41, 0x74]
  const OPERATION: Text := [0x6F, 0x70, 0x65, 0x72, 0x61, 0x74, 0x69, 0x6F, 0x6E]
  const PAYLOAD: Text := [0x70, 0x61, 0x79, 0x6C, 0x6F, 0x61, 0x64]

  /** The object literal over the given keys, without the undefined ones. */
  function Pick(envelope: seq<Field>, keys: seq<Text>): seq<Field> {
    if keys == [] then []
    else
      var rest := Pick(envelope, keys[1..]);
      match Get(envelope, keys[0])
      case None => rest
      case Some(v) => [Field(keys[0], v)] + rest
  }

  function Unsigned(envelope: seq<Field>): Text {
    CanonicalJson.CanonicalText(Obj(Pick(envelope, SignedKeys())))
  }

  function Sign(token: Text, envelope: seq<Field>): Mac {
    Mac(token, Unsigned(envelope))
  }

  predicate Distinct(keys: seq<Text>) {
    forall i, j :: 0 <= i < j < |keys| ==> keys[i] != keys[j]
  }

  lemma {:induction false} PickGets(envelope: seq<Field>, keys: seq<Text>, k: Text)
    ensures Get(Pick(envelope, keys), k) == if k in keys then Get(envelope, k) else None
  {
    if keys != [] {
      PickGets(envelope, keys[1..], k);
      var rest := Pick(envelope, keys[1..]);
      match Get(envelope, keys[0])
      case None =>
      case Some(v) =>
        assert ([Field(keys[0], v)] + rest)[1..] == rest;
    }
  }

  lemma {:induction false} PickKeys(envelope: seq<Field>, keys: seq<Text>)
    ensures forall i :: 0 <= i < |Pick(envelope, keys)| ==> Pick(envelope, keys)[i].key in keys
  {
    if keys != [] {
      PickKeys(envelope, keys[1..]);
    }
  }

  lemma {:induction false} PickValid(envelope: seq<Field>, keys: seq<Text>)
    requires Valid(Obj(envelope)) && Distinct(keys)
    ensures Valid(Obj(Pick(envelope, keys)))
  {
    if keys != [] {
      PickValid(envelope, keys[1..]);
      PickKeys(envelope, keys[1..]);
      GetValid(envelope, keys[0]);
      assert keys[0] !in keys[1..];
    }
  }

  lemma SignedKeysDistinct()
    ensures Distinct(SignedKeys())
  {
    var keys := SignedKeys();
    assert |VERSION| == 7 && |MESSAGE_ID| == 9 && |SOURCE_SITE_ID| == 12 && |SOURCE_LABEL| == 11;
    assert |SENT_AT| == 6 && |OPERATION| == 9 && |PAYLOAD| == 7;
    assert VERSION[0] != PAYLOAD[0] && MESSAGE_ID[0] != OPERATION[0];
  }

  ghost predicate AgreeOn(a: seq<Field>, b: seq<Field>, key: Text) {
    SameValue(Get(a, key), Get(b, key))
  }

  /** Two envelopes agree on everything the signature covers. */
  ghost predicate Agree(a: seq<Field>, b: seq<Field>) {
    && AgreeOn(a, b, VERSION) && AgreeOn(a, b, MESSAGE_ID)
    && AgreeOn(a, b, SOURCE_SITE_ID) && AgreeOn(a, b, SOURCE_LABEL) && AgreeOn(a, b, SENT_AT)
    && AgreeOn(a, b, OPERATION) && AgreeOn(a, b, PAYLOAD)
  }

  /** The names of the seven fields. */
  lemma SignedNames()
    ensures VERSION == Ascii("version") && MESSAGE_ID == Ascii("messageId")
    ensures SOURCE_SITE_ID == Ascii("sourceSiteId") && SOURCE_LABEL == Ascii("sourceLabel") && SENT_AT == Ascii("sentAt")
    ensures OPERATION == Ascii("operation") && PAYLOAD == Ascii("payload")
  {
  }

  lemma AgreeMeans(a: seq<Field>, b: seq<Field>)
    ensures Agree(a, b) <==> forall k | k in SignedKeys() :: AgreeOn(a, b, k)
  {
    hide AgreeOn;
    var keys := SignedKeys();
    assert VERSION in keys && MESSAGE_ID in keys && SOURCE_SITE_ID in keys && SOURCE_LABEL in keys;
    assert SENT_AT in keys && OPERATION in keys && PAYLOAD in keys;
  }

  /** The authenticated texts are equal exactly when the seven fields agree up to key order. */
  lemma UnsignedDecides(a: seq<Field>, b: seq<Field>)
    requires Valid(Obj(a)) && Valid(Obj(b))
    ensures Unsigned(a) == Unsigned(b) <==> Agree(a, b)
  {
    var keys := SignedKeys();
    AgreeMeans(a, b);
    SignedKeysDistinct();
    PickValid(a, keys);
    PickValid(b, keys);
    CanonicalJson.CanonicalTextDecides(Obj(Pick(a, keys)), Obj(Pick(b, keys)));
    SameObjects(Pick(a, keys), Pick(b, keys));
    forall k: Text
      ensures SameValue(Get(Pick(a, keys), k), Get(Pick(b, keys), k)) <==> (k in keys ==> SameValue(Get(a, k), Get(b, k)))
    {
      PickGets(a, keys, k);
      PickGets(b, keys, k);
    }
  }

  /** A signature made over one envelope is accepted on another exactly when token and covered fields agree. */
  lemma SignatureBinds(signer: Text, sent: seq<Field>, verifier: Text, received: seq<Field>)
    requires Valid(Obj(sent)) && Valid(Obj(received))
    ensures Sign(signer, sent) == Sign(verifier, received) <==> signer == verifier && Agree(sent, received)
  {
    UnsignedDecides(sent, received);
  }

  /** A relay that only reorders object keys, at any depth, never breaks a signature. */
  lemma RelayKeepsSignature(token: Text, sent: seq<Field>, relayed: seq<Field>)
    requires Valid(Obj(sent)) && Valid(Obj(relayed)) && Same(Obj(sent), Obj(relayed))
    ensures Sign(token, sent) == Sign(token, relayed)
  {
    SameObjects(sent, relayed);
    SignatureBinds(token, sent, token, relayed);
  }
}
