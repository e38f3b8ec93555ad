/**
 The line patterns of the config.toml edits, read off their regular expressions piece by piece, and
 the line tests held against them: a line that passes is put together as its expression says, and a
 line put together so passes. Which tables are ours is said in terms of the captured name: the table
 of the server itself and its sub-tables, so that other servers whose names merely begin alike stay.
*/
module CodexPatterns {
  import opened Prelude
  import opened Text
  import opened Lines
  import opened CodexConfig
  import opened CodexLineFacts

  // ---- leading blanks --------------------------------------------------------------------------------

  lemma {:induction false} StartsAt(w: string, t: string)
    requires Blank(w) && t != [] && !IsSpace(t[0])
    ensures TrimStart(w + t) == t
  {
    if w == [] {
      assert w + t == t;
    } else {
      assert (w + t)[1..] == w[1..] + t;
      StartsAt(w[1..], t);
    }
  }

  /** A text between blanks is what trimming leaves. */
  lemma TrimBetween(a: string, name: string, b: string)
    requires Blank(a) && Blank(b) && name != [] && !IsSpace(name[0]) && !IsSpace(name[|name| - 1])
    ensures Trim(a + name + b) == name && !Blank(a + name + b)
  {
    var t := name + b;
    assert a + name + b == a + t;
    StartsAt(a, t);
    assert t[|name|..] == b && t[..|name|] == name;
    TrimEndOf(t, |name|);
    assert (a + name + b)[|a|] == name[0];
  }

  // ---- the header pattern of the strip pass ----------------------------------------------------------

  /** What /([^[\]]+?)\s*\]\]?\s*$/, after leading blanks, cuts a text into around its captured name. */
  datatype Name = Name(before: string, name: string, after: string, close: string, end: string) {
    function Inner(): string { before + name + after }

    function Part(): string { Inner() + (close + end) }

    predicate Fits() {
      && Blank(before) && Blank(after) && Blank(end) && (close == "]" || close == "]]")
      && name != [] && '[' !in name && ']' !in name
    }

    /** The name is not only blanks; as the pattern takes blanks outside it first, it has text at both ends. */
    predicate Solid() { name != [] && !IsSpace(name[0]) && !IsSpace(name[|name| - 1]) }
  }

  lemma CutInner(inner: string) returns (before: string, name: string, after: string)
    requires inner != []
    ensures inner == before + name + after && Blank(before) && Blank(after) && name != []
    ensures name == if Blank(inner) then [inner[|inner| - 1]] else Trim(inner)
    ensures !Blank(inner) ==> !IsSpace(name[0]) && !IsSpace(name[|name| - 1])
  {
    var front, back := TrimMeans(inner);
    if Blank(inner) {
      var k := |inner| - 1;
      before, name, after := inner[..k], [inner[k]], [];
    } else {
      before, name, after := inner[..front], inner[front..back], inner[back..];
    }
  }

  lemma CutClose(rest: string) returns (close: string, end: string)
    ensures "]" + rest == close + end && end == DropClose(rest) && (close == "]" || close == "]]")
  {
    end := DropClose(rest);
    close := if rest != [] && rest[0] == ']' then "]]" else "]";
  }

  lemma PartOfFree(a: string, name: string, b: string, c: char)
    requires c !in a + name + b
    ensures c !in name
  {
  }

  lemma NameFits(r: string) returns (n: Name)
    requires NameIn(r).Some?
    ensures n.Fits() && n.Part() == r && NameIn(r) == Some(n.name) && (Blank(n.Inner()) || n.Solid())
  {
    var k := IndexOfChar(r, ']');
    assert 0 < k < |r| && '[' !in r[..k] && Blank(DropClose(r[k + 1..]));
    assert NameIn(r) == Some(if Blank(r[..k]) then [r[k - 1]] else Trim(r[..k]));
    hide NameIn, TrimStart, TrimEnd, IndexOfChar, Trim, DropClose, IsSpace;
    var before, name, after := CutInner(r[..k]);
    var close, end := CutClose(r[k + 1..]);
    n := Name(before, name, after, close, end);
    PartOfFree(before, name, after, '[');
    PartOfFree(before, name, after, ']');
    CutAt(r, k);
  }

  lemma CutAt(r: string, k: nat)
    requires k < |r| && r[k] == ']'
    ensures r == r[..k] + ("]" + r[k + 1..])
  {
  }

  lemma CloseBlank(close: string, end: string)
    requires Blank(end) && (close == "]" || close == "]]")
    ensures (close + end)[0] == ']' && Blank(DropClose((close + end)[1..]))
  {
    SpaceFree(end);
    var rest := (close + end)[1..];
    if close == "]]" {
      assert rest == "]" + end && rest[1..] == end;
    } else {
      assert rest == end;
      if end != [] { assert end[0] in end; }
    }
  }

  lemma FreeBetween(a: string, name: string, b: string, c: char)
    requires c !in a && c !in name && c !in b
    ensures c !in a + name + b
  {
  }

  lemma FitsIsName(n: Name)
    requires n.Fits() && n.Solid()
    ensures NameIn(n.Part()) == Some(n.name) && n.Part() != [] && n.Part()[0] != '['
  {
    var inner, tail := n.Inner(), n.close + n.end;
    hide NameIn, TrimStart, TrimEnd, Trim, DropClose, IsSpace, IndexOfChar;
    SpaceFree(n.before);
    SpaceFree(n.after);
    FreeBetween(n.before, n.name, n.after, '[');
    FreeBetween(n.before, n.name, n.after, ']');
    CloseBlank(n.close, n.end);
    TrimBetween(n.before, n.name, n.after);
    IndexAfter(inner, tail, ']');
    FirstIs(tail, ']');
    assert (inner + tail)[..|inner|] == inner && (inner + tail)[|inner| + 1..] == tail[1..];
    assert inner[0] in inner;
    NameAt(inner + tail, |inner|);
  }

  lemma FirstIs(t: string, c: char)
    requires t != [] && t[0] == c
    ensures IndexOfChar(t, c) == 0
  {
  }

  /** The captured name, once the position of the first closing bracket is known. */
  lemma NameAt(r: string, k: nat)
    requires k == IndexOfChar(r, ']') && 0 < k < |r| && '[' !in r[..k] && Blank(DropClose(r[k + 1..])) && !Blank(r[..k])
    ensures NameIn(r) == Some(Trim(r[..k]))
  {
  }

  lemma HeaderOpens(line: string) returns (indent: string, open: string, r: string)
    requires HeaderName(line).Some?
    ensures line == indent + (open + r) && Blank(indent) && (open == "[" || open == "[[")
    ensures HeaderName(line) == NameIn(r)
  {
    HeaderNameIs(line);
    hide HeaderName, NameIn, IsSpace;
    var m := TrimStartPart(line);
    hide TrimStart;
    var s := line[m..];
    r := Opened(s);
    indent, open := line[..m], if |s| > 1 && s[1] == '[' then "[[" else "[";
    SplitOpen(s);
    assert line == indent + s;
  }

  lemma SplitOpen(s: string)
    requires s != [] && s[0] == '['
    ensures s == (if |s| > 1 && s[1] == '[' then "[[" else "[") + Opened(s)
  {
  }

  /** A recognised header is blanks, one or two opening brackets, and the captured name's surroundings. */
  lemma HeaderFits(line: string) returns (indent: string, open: string, n: Name)
    requires HeaderName(line).Some?
    ensures line == indent + (open + n.Part()) && Blank(indent) && (open == "[" || open == "[[") && n.Fits()
    ensures HeaderName(line) == Some(n.name) && (Blank(n.Inner()) || n.Solid())
  {
    hide HeaderName, NameIn, IsSpace;
    var r: string;
    indent, open, r := HeaderOpens(line);
    n := NameFits(r);
  }

  /** And every line put together so, around a name with text at both ends, is recognised under that name. */
  lemma FitsIsHeader(indent: string, open: string, n: Name)
    requires Blank(indent) && (open == "[" || open == "[[") && n.Fits() && n.Solid()
    ensures HeaderName(indent + (open + n.Part())) == Some(n.name)
  {
    var part := n.Part();
    var s := open + part;
    FitsIsName(n);
    HeaderNameIs(indent + s);
    hide HeaderName, NameIn;
    StartsAt(indent, s);
    assert Opened(s) == part by { if open == "[[" { assert s[2..] == part; } else { assert s[1..] == part && s[1] == part[0]; } }
  }

  // ---- the table pattern of the credential pass ------------------------------------------------------

  predicate IsComment(t: string) {
    t == [] || (t[0] == '#' && forall i :: 1 <= i < |t| ==> !LineTerminator(t[i]))
  }

  lemma TableOpens(line: string) returns (indent: string, t: string)
    requires TableLine(line)
    ensures line == indent + ("[" + t) && Blank(indent)
    ensures 0 < IndexOfChar(t, ']') < |t| && IsComment(TrimStart(DropClose(t[IndexOfChar(t, ']') + 1..])))
  {
    var n := TrimStartPart(line);
    hide TrimStart, IndexOfChar, DropClose, IsSpace;
    var s := line[n..];
    indent, t := line[..n], s[1..];
    assert s[IndexOfChar(t, ']') + 2..] == t[IndexOfChar(t, ']') + 1..];
    assert s == "[" + t && line == indent + s;
  }

  lemma CutTable(t: string) returns (body: string, close: string, end: string)
    requires 0 < IndexOfChar(t, ']') < |t|
    ensures t == body + (close + end) && body != [] && ']' !in body && (close == "]" || close == "]]")
    ensures end == DropClose(t[IndexOfChar(t, ']') + 1..])
  {
    var k := IndexOfChar(t, ']');
    hide IndexOfChar, DropClose;
    body := t[..k];
    close, end := CutClose(t[k + 1..]);
    CutAt(t, k);
  }

  /** A line that starts a table, cut as /^\s*\[\[?[^\]]+\]\]?\s*(?:#.*)?$/ cuts it; a second bracket may stand in the body. */
  lemma TableFits(line: string) returns (indent: string, body: string, close: string, space: string, comment: string)
    requires TableLine(line)
    ensures line == indent + ("[" + (body + (close + (space + comment))))
    ensures Blank(indent) && Blank(space) && IsComment(comment)
    ensures body != [] && ']' !in body && (close == "]" || close == "]]")
  {
    hide TableLine, TrimStart, IsSpace, IsComment, DropClose, IndexOfChar;
    var t, end: string;
    indent, t := TableOpens(line);
    body, close, end := CutTable(t);
    var m := TrimStartPart(end);
    space, comment := end[..m], end[m..];
    assert end == space + comment;
  }

  /** And every line put together so starts a table. */
  lemma FitsIsTable(indent: string, body: string, close: string, space: string, comment: string)
    requires Blank(indent) && Blank(space) && IsComment(comment)
    requires body != [] && ']' !in body && (close == "]" || close == "]]")
    ensures TableLine(indent + ("[" + (body + (close + (space + comment)))))
  {
    var tail := close + (space + comment);
    EndStarts(space, comment);
    CloseDrops(close, space + comment);
    TrimStartOf(space, comment);
    hide TrimStart, IsSpace, DropClose, IsComment, TableLine;
    IndexAfter(body, tail, ']');
    FirstIs(tail, ']');
    hide IndexOfChar;
    DropFront(body, tail);
    TableOf(indent, body + tail);
  }

  lemma DropFront(body: string, tail: string)
    requires tail != []
    ensures (body + tail)[|body| + 1..] == tail[1..]
  {
  }

  lemma TableOf(indent: string, t: string)
    requires Blank(indent) && 0 < IndexOfChar(t, ']') < |t|
    requires IsComment(TrimStart(DropClose(t[IndexOfChar(t, ']') + 1..])))
    ensures TableLine(indent + ("[" + t))
  {
    var s := "[" + t;
    StartsAt(indent, s);
    hide TrimStart, IsSpace, DropClose, IndexOfChar;
    assert s[1..] == t && s[IndexOfChar(t, ']') + 2..] == t[IndexOfChar(t, ']') + 1..];
  }

  lemma EndStarts(space: string, comment: string)
    requires Blank(space) && IsComment(comment)
    ensures space + comment == [] || (space + comment)[0] != ']'
  {
    SpaceFree(space);
    if space != [] { assert space[0] in space; }
  }

  lemma CloseDrops(close: string, end: string)
    requires (close == "]" || close == "]]") && (end == [] || end[0] != ']')
    ensures (close + end)[0] == ']' && DropClose((close + end)[1..]) == end
  {
    if close == "]]" {
      assert (close + end)[1..] == "]" + end;
    } else {
      assert (close + end)[1..] == end;
    }
  }

  lemma TrimStartOf(space: string, comment: string)
    requires Blank(space) && IsComment(comment)
    ensures TrimStart(space + comment) == comment
  {
    if comment == [] {
      assert space + comment == space;
      TrimStartEmpty(space);
    } else {
      StartsAt(space, comment);
    }
  }

  // ---- whose table ------------------------------------------------------------------------------------

  /** Ours are the table of the server and its sub-tables, and no other server's. */
  lemma OwnMeans(line: string, serverName: string)
    ensures OwnHeader(line, Target(serverName)) <==>
              exists tail: string :: HeaderName(line) == Some("mcp_servers." + serverName + tail) && (tail == [] || tail[0] == '.')
  {
    hide HeaderName;
    var t := "mcp_servers." + serverName;
    if OwnHeader(line, Target(serverName)) {
      var name := HeaderName(line).value;
      var tail := name[|t|..];
      assert name == t + tail;
      if name != t { assert (t + ".")[|t|] == name[|t|]; }
    }
    if tail: string :| HeaderName(line) == Some(t + tail) && (tail == [] || tail[0] == '.') {
      if tail != [] { assert t + tail == t + "." + tail[1..]; } else { assert t + tail == t; }
    }
  }

  // ---- the credential pattern ----------------------------------------------------------------------------

  const KEY := "cli_auth_credentials_store"

  lemma TheKey()
    ensures CREDENTIAL_KEY == KEY && |KEY| == 26 && !IsSpace(KEY[0])
  {
    assert KEY[0] == 'c';
  }

  lemma KeyOpens(line: string) returns (indent: string, t: string)
    requires CredentialLine(line)
    ensures line == indent + (KEY + t) && Blank(indent) && FirstOr(TrimStart(t), ' ') == '='
  {
    TheKey();
    hide KEY, CREDENTIAL_KEY;
    var n := TrimStartPart(line);
    hide TrimStart, IsSpace;
    var s := line[n..];
    indent, t := line[..n], s[26..];
    assert s == KEY + t;
  }

  lemma EqualsCut(t: string) returns (space: string, rest: string)
    requires FirstOr(TrimStart(t), ' ') == '='
    ensures t == space + ("=" + rest) && Blank(space)
  {
    var m := TrimStartPart(t);
    hide TrimStart, IsSpace;
    assert t[m..] == "=" + t[m + 1..];
    space, rest := t[..m], t[m + 1..];
  }

  /** A credential line, cut as /^\s*cli_auth_credentials_store\s*=/ cuts it. */
  lemma CredentialFits(line: string) returns (indent: string, space: string, rest: string)
    requires CredentialLine(line)
    ensures line == indent + (KEY + (space + ("=" + rest))) && Blank(indent) && Blank(space)
  {
    hide *;
    var t: string;
    indent, t := KeyOpens(line);
    space, rest := EqualsCut(t);
  }

  /** And every line put together so is one. */
  lemma FitsIsCredential(indent: string, space: string, rest: string)
    requires Blank(indent) && Blank(space)
    ensures CredentialLine(indent + (KEY + (space + ("=" + rest))))
  {
    TheKey();
    hide KEY, CREDENTIAL_KEY;
    var t := space + ("=" + rest);
    StartsAt(indent, KEY + t);
    assert (KEY + t)[26..] == t && (KEY + t)[..26] == KEY;
    StartsAt(space, "=" + rest);
  }
}
