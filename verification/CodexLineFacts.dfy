/**
 How the line tests of config.toml relate, as the two passes of an upsert need it: headers of the strip
 pass start tables for the credential pass, table lines are no credential lines, trailing whitespace
 changes neither which header a line is nor whether it sets the credential key, and our own headers are
 recognised exactly for names without brackets or trailing whitespace.
*/
module CodexLineFacts {
  import opened Prelude
  import opened Text
  import opened Lines
  import opened CodexConfig

  // ---- trimming the front --------------------------------------------------------------------------

  lemma {:induction false} TrimStartPad(t: string, w: string)
    requires Blank(w)
    ensures TrimStart(t + w) == if Blank(t) then [] else TrimStart(t) + w
  {
    if t == [] {
      assert t + w == w;
      TrimStartEmpty(w);
    } else {
      assert (t + w)[1..] == t[1..] + w;
      assert t == [t[0]] + t[1..];
      if IsSpace(t[0]) { TrimStartPad(t[1..], w); }
    }
  }

  lemma {:induction false} IndexPadded(r: string, w: string, c: char)
    requires c !in w
    ensures IndexOfChar(r + w, c) == if c in r then IndexOfChar(r, c) else |r + w|
  {
    if r == [] {
      assert r + w == w;
      if w != [] { assert w == [w[0]] + w[1..]; IndexPadded([], w[1..], c); assert [] + w[1..] == w[1..]; }
    } else {
      assert (r + w)[1..] == r[1..] + w;
      assert r == [r[0]] + r[1..];
      if r[0] != c { IndexPadded(r[1..], w, c); }
    }
  }

  lemma {:induction false} IndexPresent(r: string, c: char)
    ensures IndexOfChar(r, c) < |r| <==> c in r
  {
    if r != [] {
      assert r == [r[0]] + r[1..];
      IndexPresent(r[1..], c);
    }
  }

  lemma {:induction false} IndexAfter(r: string, u: string, c: char)
    requires c !in r
    ensures IndexOfChar(r + u, c) == |r| + IndexOfChar(u, c)
  {
    if r == [] {
      assert r + u == u;
    } else {
      assert (r + u)[1..] == r[1..] + u;
      assert r == [r[0]] + r[1..];
      IndexAfter(r[1..], u, c);
    }
  }

  // ---- headers ---------------------------------------------------------------------------------------

  lemma BlankPad(t: string, w: string)
    requires Blank(w)
    ensures Blank(t + w) <==> Blank(t)
  {
    if Blank(t + w) {
      forall i | 0 <= i < |t| ensures IsSpace(t[i]) { assert (t + w)[i] == t[i]; }
    }
  }

  lemma SpaceFree(w: string)
    requires Blank(w)
    ensures ']' !in w && '[' !in w && '=' !in w
  {
  }

  lemma DropClosePad(t: string, w: string)
    requires Blank(w)
    ensures Blank(DropClose(t + w)) <==> Blank(DropClose(t))
  {
    if t == [] {
      assert t + w == w;
    } else {
      assert (t + w)[1..] == t[1..] + w;
      BlankPad(t[1..], w);
      BlankPad(t, w);
    }
  }

  /** The part of HeaderName after the opening brackets. */
  function NameIn(r: string): Option<string> {
    var k := IndexOfChar(r, ']');
    if k == 0 || k == |r| || '[' in r[..k] || !Blank(DropClose(r[k + 1..])) then None
    else if Blank(r[..k]) then Some([r[k - 1]])
    else Some(Trim(r[..k]))
  }

  function Opened(s: string): string
    requires s != []
  {
    if |s| > 1 && s[1] == '[' then s[2..] else s[1..]
  }

  lemma HeaderNameIs(line: string)
    ensures var s := TrimStart(line);
            HeaderName(line) == if s == [] || s[0] != '[' then None else NameIn(Opened(s))
  {
  }

  lemma NameInPad(r: string, w: string)
    requires Blank(w)
    ensures NameIn(r + w) == NameIn(r)
  {
    SpaceFree(w);
    IndexPadded(r, w, ']');
    IndexPresent(r, ']');
    var k := IndexOfChar(r, ']');
    if k < |r| {
      assert (r + w)[..k] == r[..k];
      assert (r + w)[k + 1..] == r[k + 1..] + w;
      DropClosePad(r[k + 1..], w);
    }
  }

  lemma OpenedPad(s: string, w: string)
    requires s != [] && s[0] == '[' && Blank(w)
    ensures Opened(s + w) == Opened(s) + w
  {
    SpaceFree(w);
    assert |s| == 1 && w != [] ==> (s + w)[1] == w[0];
  }

  /** Trailing whitespace does not change which header a line is. */
  lemma HeaderPad(t: string, w: string)
    requires Blank(w)
    ensures HeaderName(t + w) == HeaderName(t)
  {
    HeaderNameIs(t);
    HeaderNameIs(t + w);
    TrimStartPad(t, w);
    TrimStartEmpty(t);
    var s := TrimStart(t);
    if s != [] && s[0] == '[' {
      OpenedPad(s, w);
      NameInPad(Opened(s), w);
    }
  }

  lemma HeaderTrimmed(line: string)
    ensures HeaderName(TrimEnd(line)) == HeaderName(line)
  {
    var n := TrimEndPart(line);
    assert line == line[..n] + line[n..];
    HeaderPad(line[..n], line[n..]);
  }

  /** Every header of the strip pass also starts a table for the credential pass. */
  lemma HeaderIsTable(line: string)
    requires HeaderName(line).Some?
    ensures TableLine(line)
  {
    HeaderNameIs(line);
    var s := TrimStart(line);
    var r := Opened(s);
    var k := IndexOfChar(r, ']');
    TrimStartEmpty(DropClose(r[k + 1..]));
    if |s| > 1 && s[1] == '[' {
      assert s[1..] == ['['] + r;
      IndexAfter(['['], r, ']');
      assert s[k + 3..] == r[k + 1..];
    } else {
      assert s[k + 2..] == r[k + 1..];
    }
  }

  // ---- credential lines ---------------------------------------------------------------------------------

  lemma CredentialKey()
    ensures |CREDENTIAL_KEY| == 26 && CREDENTIAL_KEY[0] == 'c' && CREDENTIAL_KEY[1] == 'l'
  {
  }

  predicate NoSpace(s: string) { forall i :: 0 <= i < |s| ==> !IsSpace(s[i]) }

  lemma CredentialKeySolid()
    ensures NoSpace(CREDENTIAL_KEY)
  {
    assert NoSpace("cli_auth_");
    assert NoSpace("credentials_store");
  }

  /** A line that starts with something else is neither a credential line nor a header. */
  lemma OtherStart(line: string)
    requires |line| > 1 && !IsSpace(line[0]) && (line[0] != 'c' || line[1] != 'l')
    ensures !CredentialLine(line) && (line[0] != '[' ==> HeaderName(line) == None)
  {
    CredentialKey();
  }

  lemma TableIsNoCredential(line: string)
    requires TableLine(line)
    ensures !CredentialLine(line)
  {
    CredentialKey();
  }

  lemma EmptyLine()
    ensures !CredentialLine([]) && !TableLine([]) && HeaderName([]) == None
  {
    CredentialKey();
  }

  lemma BlankLine(line: string)
    requires Blank(line)
    ensures !CredentialLine(line) && !TableLine(line) && HeaderName(line) == None
  {
    CredentialKey();
    TrimStartEmpty(line);
  }

  lemma KeyPad(s: string, w: string)
    requires Blank(w) && CREDENTIAL_KEY <= s + w
    ensures CREDENTIAL_KEY <= s
  {
    var key := CREDENTIAL_KEY;
    forall i | |s| <= i < |key| ensures IsSpace(key[i]) { assert key[i] == (s + w)[i] == w[i - |s|]; }
    assert |s| < |key| ==> IsSpace(key[|s|]);
    CredentialKeySolid();
  }

  /** Trailing whitespace does not change whether a line sets the credential key. */
  lemma CredentialPad(t: string, w: string)
    requires Blank(w)
    ensures CredentialLine(t + w) <==> CredentialLine(t)
  {
    TrimStartPad(t, w);
    CredentialKey();
    if Blank(t) {
      TrimStartEmpty(t);
    } else {
      var s := TrimStart(t);
      if CREDENTIAL_KEY <= s + w {
        KeyPad(s, w);
        KeyRest(s, w);
      } else {
        assert s <= s + w;
      }
    }
  }

  lemma KeyRest(s: string, w: string)
    requires Blank(w) && CREDENTIAL_KEY <= s
    ensures CREDENTIAL_KEY <= s + w
    ensures FirstOr(TrimStart((s + w)[|CREDENTIAL_KEY|..]), ' ') == '=' <==> FirstOr(TrimStart(s[|CREDENTIAL_KEY|..]), ' ') == '='
  {
    var u := s[|CREDENTIAL_KEY|..];
    assert (s + w)[|CREDENTIAL_KEY|..] == u + w;
    TrimStartPad(u, w);
    TrimStartEmpty(u);
  }

  lemma CredentialTrimmed(line: string)
    ensures CredentialLine(TrimEnd(line)) <==> CredentialLine(line)
  {
    var n := TrimEndPart(line);
    assert line == line[..n] + line[n..];
    CredentialPad(line[..n], line[n..]);
  }

  /** The line the hub writes. */
  lemma FileCredentialLine()
    ensures CredentialLine(FILE_CREDENTIAL_STORE) && !TableLine(FILE_CREDENTIAL_STORE)
    ensures HeaderName(FILE_CREDENTIAL_STORE) == None && !Blank(FILE_CREDENTIAL_STORE)
  {
    CredentialKey();
    var rest := " = \"file\"";
    assert FILE_CREDENTIAL_STORE[|CREDENTIAL_KEY|..] == rest;
    assert TrimStart(rest) == rest[1..];
  }

  lemma FileCredentialTrimmed()
    ensures TrimEnd(FILE_CREDENTIAL_STORE) == FILE_CREDENTIAL_STORE
  {
    var n := |FILE_CREDENTIAL_STORE|;
    assert FILE_CREDENTIAL_STORE[n - 1] == '"';
  }

  // ---- our own headers --------------------------------------------------------------------------------------

  /** Server names whose printed header the strip pass recognises. */
  predicate Recognised(name: string) {
    '[' !in name && ']' !in name && (name != [] ==> !IsSpace(name[|name| - 1]))
  }

  lemma TargetStart(name: string)
    ensures |Target(name)| == 12 + |name| && Target(name)[0] == 'm'
    ensures name != [] ==> Target(name)[|Target(name)| - 1] == name[|name| - 1]
    ensures name == [] ==> Target(name)[11] == '.'
    ensures ('[' in Target(name) <==> '[' in name) && (']' in Target(name) <==> ']' in name)
  {
    var p := "mcp_servers.";
    assert '[' !in p && ']' !in p;
  }

  lemma TrimSolid(t: string)
    requires t != [] && !IsSpace(t[0]) && !IsSpace(t[|t| - 1])
    ensures Trim(t) == t
  {
  }

  lemma TrimShort(t: string)
    ensures |Trim(t)| <= |t|
    ensures t != [] && IsSpace(t[|t| - 1]) ==> |Trim(t)| < |t|
  {
    ShortStart(t);
    ShortEnd(TrimStart(t));
    if t != [] && IsSpace(t[|t| - 1]) && TrimStart(t) == t {
      ShortEnd(t[..|t| - 1]);
    }
  }

  lemma {:induction false} ShortStart(t: string)
    ensures |TrimStart(t)| <= |t|
    ensures |TrimStart(t)| == |t| ==> TrimStart(t) == t
  {
    if t != [] && IsSpace(t[0]) { ShortStart(t[1..]); }
  }

  lemma {:induction false} ShortEnd(t: string)
    ensures |TrimEnd(t)| <= |t|
  {
    if t != [] && IsSpace(t[|t| - 1]) { ShortEnd(t[..|t| - 1]); }
  }

  /** What the strip pass captures from a printed bracket around a text. */
  lemma BracketName(t: string)
    requires t != [] && !IsSpace(t[0]) && t[0] != '['
    ensures HeaderName("[" + t + "]") == NameIn(t + "]")
  {
    var line := "[" + t + "]";
    assert line[1..] == t + "]";
  }

  lemma BracketSolid(t: string)
    requires t != [] && !IsSpace(t[0]) && '[' !in t && ']' !in t && !IsSpace(t[|t| - 1])
    ensures NameIn(t + "]") == Some(t)
  {
    IndexAfter(t, "]", ']');
    assert (t + "]")[..|t|] == t && (t + "]")[|t| + 1..] == [];
    TrimSolid(t);
  }

  lemma BracketOther(t: string)
    requires t != [] && !IsSpace(t[0]) && ('[' in t || ']' in t || IsSpace(t[|t| - 1]))
    ensures var n := NameIn(t + "]"); n == None || |n.value| < |t|
  {
    var r := t + "]";
    var k := IndexOfChar(r, ']');
    IndexPresent(t, ']');
    if ']' in t {
      CaptureBound(r, k);
      IndexEarly(t, ']');
    } else {
      IndexAfter(t, "]", ']');
      assert r[..|t|] == t;
      TrimShort(t);
    }
  }

  lemma CaptureBound(r: string, k: nat)
    requires k == IndexOfChar(r, ']')
    ensures NameIn(r) == None || |NameIn(r).value| <= k
  {
    if 0 < k < |r| { TrimShort(r[..k]); }
  }

  lemma {:induction false} IndexEarly(t: string, c: char)
    requires c in t
    ensures IndexOfChar(t + [c], c) < |t|
  {
    assert t == [t[0]] + t[1..];
    if t[0] != c {
      assert (t + [c])[1..] == t[1..] + [c];
      IndexEarly(t[1..], c);
    }
  }

  /** Our own header is recognised exactly for names without brackets or trailing whitespace. */
  lemma OwnHeaderExactly(name: string)
    ensures OwnHeader(BlockHeader(name), Target(name)) <==> Recognised(name)
  {
    var t := Target(name);
    TargetStart(name);
    BracketName(t);
    if Recognised(name) {
      BracketSolid(t);
    } else {
      BracketOther(t);
    }
  }

  lemma OwnEnvHeader(name: string)
    requires '[' !in name && ']' !in name
    ensures OwnHeader(EnvHeader(name), Target(name))
  {
    var t := Target(name) + ".env";
    TargetStart(name);
    assert EnvHeader(name) == "[" + t + "]";
    assert '[' !in ".env" && ']' !in ".env";
    BracketName(t);
    BracketSolid(t);
    assert Target(name) + "." <= t;
  }
}
