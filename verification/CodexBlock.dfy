/**
 What a TOML reader finds in a config.toml that the hub has upserted: the values it stands for, table
 by table and key by key. The reader knows basic strings with the two escapes the writer uses, lists of
 them, and `key = value` lines of a table; it is defined apart from the writer.
*/
module CodexBlock {
  import opened Prelude
  import opened Text
  import opened Lines
  import opened CodexConfig
  import opened CodexLineFacts
  import opened CodexConfigLaws

  // ---- values ----------------------------------------------------------------------------------------

  /** The rest of a basic string after its opening quote, and what follows the closing one. */
  function ReadChars(t: string): (r: Option<(string, string)>)
    ensures r.Some? ==> |r.value.1| < |t|
  {
    if t == [] then None
    else if t[0] == '"' then Some(([], t[1..]))
    else if t[0] == '\\' && (|t| == 1 || (t[1] != '\\' && t[1] != '"')) then None
    else
      var escaped := t[0] == '\\';
      match ReadChars(t[if escaped then 2 else 1..])
      case None => None
      case Some(more) => Some(([if escaped then t[1] else t[0]] + more.0, more.1))
  }

  function ReadString(t: string): (r: Option<(string, string)>)
    ensures r.Some? ==> |r.value.1| < |t|
  {
    if t == [] || t[0] != '"' then None else ReadChars(t[1..])
  }

  /** The rest of a list of strings after its opening bracket. */
  function ReadItems(t: string): Option<seq<string>>
    decreases |t|
  {
    match ReadString(t)
    case None => if t == "]" then Some([]) else None
    case Some(item) =>
      if item.1 == "]" then Some([item.0])
      else if |item.1| >= 2 && item.1[0] == ',' && item.1[1] == ' ' then
        match ReadItems(item.1[2..])
        case None => None
        case Some(more) => Some([item.0] + more)
      else None
  }

  function ReadList(t: string): Option<seq<string>> {
    if t == [] || t[0] != '[' then None else ReadItems(t[1..])
  }

  lemma EscapedHead(s: string)
    requires s != []
    ensures Escaped(s) == (if s[0] == '\\' || s[0] == '"' then ['\\', s[0]] else [s[0]]) + Escaped(s[1..])
  {
  }

  lemma ReadsPlain(c: char, more: string)
    requires c != '"' && c != '\\' && ReadChars(more).Some?
    ensures ReadChars([c] + more) == Some(([c] + ReadChars(more).value.0, ReadChars(more).value.1))
  {
    assert ([c] + more)[1..] == more;
  }

  lemma ReadsEscape(c: char, more: string)
    requires (c == '"' || c == '\\') && ReadChars(more).Some?
    ensures ReadChars(['\\', c] + more) == Some(([c] + ReadChars(more).value.0, ReadChars(more).value.1))
  {
    assert (['\\', c] + more)[2..] == more;
  }

  lemma {:induction false} ReadsEscaped(s: string, rest: string)
    ensures ReadChars(Escaped(s) + "\"" + rest) == Some((s, rest))
  {
    var t := Escaped(s) + "\"" + rest;
    if s == [] {
      assert t == "\"" + rest && t[1..] == rest;
    } else {
      ReadsEscaped(s[1..], rest);
      var more := Escaped(s[1..]) + "\"" + rest;
      EscapedHead(s);
      hide Escaped;
      if s[0] == '\\' || s[0] == '"' {
        assert t == ['\\', s[0]] + more;
        ReadsEscape(s[0], more);
      } else {
        assert t == [s[0]] + more;
        ReadsPlain(s[0], more);
      }
      hide ReadChars;
      assert [s[0]] + s[1..] == s;
    }
  }

  /** A written string reads back as the value it was written for. */
  lemma ReadsString(s: string, rest: string)
    ensures ReadString(TomlStr(s) + rest) == Some((s, rest))
  {
    var t := TomlStr(s) + rest;
    ReadsEscaped(s, rest);
    assert t == "\"" + (Escaped(s) + "\"" + rest) && t[1..] == Escaped(s) + "\"" + rest;
  }

  /** So does a written list. */
  lemma {:induction false} ReadsItems(args: seq<string>)
    ensures ReadItems(ArgList(args) + "]") == Some(args)
  {
    if args == [] {
      assert ArgList(args) + "]" == "]";
    } else if |args| == 1 {
      ReadsString(args[0], "]");
      assert [args[0]] == args;
    } else {
      var more := ArgList(args[1..]) + "]";
      ReadsString(args[0], ", " + more);
      ReadsItems(args[1..]);
      assert ArgList(args) + "]" == TomlStr(args[0]) + (", " + more);
      assert (", " + more)[2..] == more;
      assert [args[0]] + args[1..] == args;
    }
  }

  // ---- tables ----------------------------------------------------------------------------------------

  /** The lines up to the next table. */
  function UntilTable(lines: seq<string>): seq<string> {
    if lines == [] || TableLine(lines[0]) then [] else [lines[0]] + UntilTable(lines[1..])
  }

  /** The lines of the first table of a name. */
  function Table(lines: seq<string>, name: string): seq<string> {
    if lines == [] then []
    else if HeaderName(lines[0]) == Some(name) then UntilTable(lines[1..])
    else Table(lines[1..], name)
  }

  /** What stands after `key = ` in the first line that begins so. */
  function Value(lines: seq<string>, key: string): Option<string> {
    if lines == [] then None
    else if key + " = " <= lines[0] then Some(lines[0][|key| + 3..])
    else Value(lines[1..], key)
  }

  lemma {:induction false} TableSkips(lines: seq<string>, more: seq<string>, name: string)
    requires forall i :: 0 <= i < |lines| ==> HeaderName(lines[i]) != Some(name)
    ensures Table(lines + more, name) == Table(more, name)
  {
    hide HeaderName;
    if lines == [] {
      assert lines + more == more;
    } else {
      assert (lines + more)[1..] == lines[1..] + more;
      TableSkips(lines[1..], more, name);
    }
  }

  lemma {:induction false} UntilStops(lines: seq<string>, more: seq<string>)
    requires forall i :: 0 <= i < |lines| ==> !TableLine(lines[i])
    requires more == [] || TableLine(more[0])
    ensures UntilTable(lines + more) == lines
  {
    hide TableLine;
    if lines == [] {
      assert lines + more == more;
    } else {
      assert (lines + more)[1..] == lines[1..] + more;
      UntilStops(lines[1..], more);
      assert [lines[0]] + lines[1..] == lines;
    }
  }

  /** The names of our two headers, as the strip pass reads them. */
  lemma HeadersRead(name: string)
    requires Recognised(name)
    ensures HeaderName(BlockHeader(name)) == Some(Target(name))
    ensures HeaderName(EnvHeader(name)) == Some(Target(name) + ".env") && TableLine(EnvHeader(name))
  {
    TargetStart(name);
    var t, e := Target(name), Target(name) + ".env";
    BracketName(t);
    BracketSolid(t);
    assert EnvHeader(name) == "[" + e + "]";
    assert '[' !in ".env" && ']' !in ".env";
    BracketName(e);
    BracketSolid(e);
    HeaderIsTable(EnvHeader(name));
  }

  lemma SettingsArePlain(o: Options)
    ensures forall i | i in {1, 2, 3, 5, 6, 7} :: !TableLine(BlockLines(o)[i]) && HeaderName(BlockLines(o)[i]) == None
  {
    BlockPlain(o);
    EmptyLine();
    forall i: int | 0 <= i < 8 && i != 3 && i != 0 && i != 4 ensures !TableLine(BlockLines(o)[i]) {
      var l := BlockLines(o)[i];
      assert l != [] && TrimStart(l) == l && l[0] != '[';
    }
  }

  /** Two tables, one after the other, behind lines of neither name. */
  lemma TwoTables(front: seq<string>, h: string, main: seq<string>, g: string, env: seq<string>, t: string, e: string)
    requires t != e && HeaderName(h) == Some(t) && HeaderName(g) == Some(e) && TableLine(g)
    requires forall i :: 0 <= i < |main| ==> !TableLine(main[i]) && HeaderName(main[i]) == None
    requires forall i :: 0 <= i < |env| ==> !TableLine(env[i])
    requires forall i :: 0 <= i < |front| ==> HeaderName(front[i]) != Some(t) && HeaderName(front[i]) != Some(e)
    ensures Table(front + ([h] + (main + ([g] + env))), t) == main
    ensures Table(front + ([h] + (main + ([g] + env))), e) == env
  {
    hide HeaderName, TableLine, Table, UntilTable;
    TableSkips(front, [h] + (main + ([g] + env)), t);
    TableHere(h, main + ([g] + env), t);
    UntilStops(main, [g] + env);
    TableSkips(front, [h] + (main + ([g] + env)), e);
    TableSkips([h], main + ([g] + env), e);
    TableSkips(main, [g] + env, e);
    TableHere(g, env, e);
    UntilStops(env, []);
    assert env + [] == env;
  }

  lemma TableHere(header: string, rest: seq<string>, name: string)
    requires HeaderName(header) == Some(name)
    ensures Table([header] + rest, name) == UntilTable(rest)
  {
    assert ([header] + rest)[1..] == rest;
  }

  /** The two tables of a fresh block, behind lines that hold none of ours. */
  lemma BlockTables(b: seq<string>, o: Options)
    requires Recognised(o.serverName) && NoOwnHeader(b, Target(o.serverName))
    ensures var l, t := BlockLines(o), Target(o.serverName);
            && Table(After(b, l), t) == [l[1], l[2], l[3]]
            && Table(After(b, l), t + ".env") == [l[5], l[6], l[7], []]
  {
    var l, t := BlockLines(o), Target(o.serverName);
    hide *;
    HeadersRead(o.serverName);
    SettingsArePlain(o);
    BlockHeads(o);
    EmptyLine();
    NotOurs(b, t);
    var front, main, env := b + [[]], [l[1], l[2], l[3]], [l[5], l[6], l[7], []];
    forall i | 0 <= i < 3 ensures !TableLine(main[i]) && HeaderName(main[i]) == None { assert main[i] == l[i + 1]; }
    assert t != t + ".env" by { assert |t| != |t + ".env"|; }
    BlockShape(b, l);
    assert After(b, l) == front + ([l[0]] + (main + ([l[4]] + env)));
    TwoTables(front, l[0], main, l[4], env, t, t + ".env");
  }

  lemma BlockShape(b: seq<string>, l: seq<string>)
    requires |l| == 8
    ensures After(b, l) == (b + [[]]) + ([l[0]] + ([l[1], l[2], l[3]] + ([l[4]] + [l[5], l[6], l[7], []])))
  {
  }

  lemma NotOurs(b: seq<string>, t: string)
    requires NoOwnHeader(b, t)
    ensures forall i :: 0 <= i < |b + [[]]| ==> HeaderName((b + [[]])[i]) != Some(t) && HeaderName((b + [[]])[i]) != Some(t + ".env")
  {
    EmptyLine();
    assert t + "." <= t + ".env";
    hide HeaderName;
    forall i | 0 <= i < |b| ensures HeaderName(b[i]) != Some(t) && HeaderName(b[i]) != Some(t + ".env") {
      assert !OwnHeader(b[i], t);
    }
  }

  lemma BlockHeads(o: Options)
    ensures |BlockLines(o)| == 8
    ensures BlockLines(o)[0] == BlockHeader(o.serverName) && BlockLines(o)[4] == EnvHeader(o.serverName)
  {
  }

  /** The value of a line that sets a key, and the lines that do not set it. */
  lemma ValueHere(key: string, value: string, rest: seq<string>)
    ensures Value([key + " = " + value] + rest, key) == Some(value)
  {
    var line := key + " = " + value;
    assert (key + " = ") <= line && line[|key| + 3..] == value;
  }

  lemma ValueLater(line: string, rest: seq<string>, key: string, k: nat)
    requires k < |key| && k < |line| && line[k] != key[k]
    ensures Value([line] + rest, key) == Value(rest, key)
  {
    assert (key + " = ")[k] == key[k];
    assert ([line] + rest)[1..] == rest;
  }

  /** What the two tables of the block hold. */
  lemma BlockValues(o: Options)
    ensures var l := BlockLines(o);
            var main, env := [l[1], l[2], l[3]], [l[5], l[6], l[7], []];
            && Value(main, "command") == Some(TomlStr(o.nodePath))
            && Value(main, "args") == Some("[" + ArgList(o.nodeArgs + [Forward(o.bridgePath)]) + "]")
            && Value(env, "AMA_HUB_URL") == Some(TomlStr(o.hubUrl))
            && Value(env, "AMA_HUB_SECRET") == Some(TomlStr(o.secret))
            && Value(env, "AMA_PROFILE_ID") == Some(TomlStr(o.profileId))
  {
    var l := BlockLines(o);
    var args := "[" + ArgList(o.nodeArgs + [Forward(o.bridgePath)]) + "]";
    assert l[1] == "command" + " = " + TomlStr(o.nodePath);
    assert l[2] == "args" + " = " + args;
    assert l[5] == "AMA_HUB_URL" + " = " + TomlStr(o.hubUrl);
    assert l[6] == "AMA_HUB_SECRET" + " = " + TomlStr(o.secret);
    assert l[7] == "AMA_PROFILE_ID" + " = " + TomlStr(o.profileId);
    hide TomlStr, BlockLines, Value;
    ValueHere("command", TomlStr(o.nodePath), [l[2], l[3]]);
    ValueLater(l[1], [l[2], l[3]], "args", 0);
    ValueHere("args", args, [l[3]]);
    assert [l[1]] + [l[2], l[3]] == [l[1], l[2], l[3]] && [l[2]] + [l[3]] == [l[2], l[3]];
    ValueHere("AMA_HUB_URL", TomlStr(o.hubUrl), [l[6], l[7], []]);
    ValueLater(l[5], [l[6], l[7], []], "AMA_HUB_SECRET", 8);
    ValueHere("AMA_HUB_SECRET", TomlStr(o.secret), [l[7], []]);
    ValueLater(l[5], [l[6], l[7], []], "AMA_PROFILE_ID", 4);
    ValueLater(l[6], [l[7], []], "AMA_PROFILE_ID", 4);
    ValueHere("AMA_PROFILE_ID", TomlStr(o.profileId), [[]]);
    assert [l[5]] + [l[6], l[7], []] == [l[5], l[6], l[7], []] && [l[6]] + [l[7], []] == [l[6], l[7], []];
    assert [l[7]] + [[]] == [l[7], []];
  }

  /** The line of a key reads as a string. */
  predicate Says(lines: seq<string>, key: string, value: string) {
    Value(lines, key).Some? && ReadString(Value(lines, key).value) == Some((value, ""))
  }

  lemma WrittenSays(lines: seq<string>, key: string, value: string)
    requires Value(lines, key) == Some(TomlStr(value))
    ensures Says(lines, key, value)
  {
    ReadsString(value, "");
    assert TomlStr(value) + "" == TomlStr(value);
  }

  lemma WrittenLists(lines: seq<string>, key: string, args: seq<string>)
    requires Value(lines, key) == Some("[" + ArgList(args) + "]")
    ensures ReadList(Value(lines, key).value) == Some(args)
  {
    ReadsItems(args);
    assert ("[" + ArgList(args) + "]")[1..] == ArgList(args) + "]";
  }

  lemma UpsertTables(x: string, o: Options)
    requires NoBreaksIn(o) && Recognised(o.serverName)
    ensures var lines, l := Split(Upserted(x, o)), BlockLines(o);
            && Table(lines, "mcp_servers." + o.serverName) == [l[1], l[2], l[3]]
            && Table(lines, "mcp_servers." + o.serverName + ".env") == [l[5], l[6], l[7], []]
  {
    assert Target(o.serverName) == "mcp_servers." + o.serverName;
    hide *;
    UpsertedLines(x, o);
    BodyShape(x, o.serverName);
    BlockTables(Body(x, o.serverName), o);
  }

  /** What a reader finds in the two tables of the block. */
  lemma BlockSays(o: Options)
    ensures var l := BlockLines(o); var main, env := [l[1], l[2], l[3]], [l[5], l[6], l[7], []];
            && Says(main, "command", o.nodePath)
            && Value(main, "args").Some? && ReadList(Value(main, "args").value) == Some(o.nodeArgs + [Forward(o.bridgePath)])
            && Says(env, "AMA_HUB_URL", o.hubUrl)
            && Says(env, "AMA_HUB_SECRET", o.secret)
            && Says(env, "AMA_PROFILE_ID", o.profileId)
  {
    var l := BlockLines(o);
    assert |l| == 8;
    BlockValues(o);
    hide *;
    WrittenSays([l[1], l[2], l[3]], "command", o.nodePath);
    WrittenLists([l[1], l[2], l[3]], "args", o.nodeArgs + [Forward(o.bridgePath)]);
    WrittenSays([l[5], l[6], l[7], []], "AMA_HUB_URL", o.hubUrl);
    WrittenSays([l[5], l[6], l[7], []], "AMA_HUB_SECRET", o.secret);
    WrittenSays([l[5], l[6], l[7], []], "AMA_PROFILE_ID", o.profileId);
  }

  /**
   After an upsert, whatever the file held before, the table of the server says how to start the bridge
   and its env table how the bridge reaches the hub: the options given, and no older ones.
  */
  lemma UpsertReadsBack(x: string, o: Options)
    requires NoBreaksIn(o) && Recognised(o.serverName)
    ensures var lines := Split(Upserted(x, o));
            var main, env := Table(lines, "mcp_servers." + o.serverName), Table(lines, "mcp_servers." + o.serverName + ".env");
            && Says(main, "command", o.nodePath)
            && Value(main, "args").Some? && ReadList(Value(main, "args").value) == Some(o.nodeArgs + [Forward(o.bridgePath)])
            && Says(env, "AMA_HUB_URL", o.hubUrl)
            && Says(env, "AMA_HUB_SECRET", o.secret)
            && Says(env, "AMA_PROFILE_ID", o.profileId)
  {
    hide *;
    UpsertTables(x, o);
    BlockSays(o);
  }

  // ---- the credential store --------------------------------------------------------------------------------

  lemma {:induction false} BoundReadsFile(lines: seq<string>, seen: bool)
    requires Bound(lines, seen)
    ensures Value(UntilTable(lines), "cli_auth_credentials_store") == if seen then None else Some("\"file\"")
  {
    if lines != [] && !TableLine(lines[0]) {
      var rest := UntilTable(lines[1..]);
      BoundReadsFile(lines[1..], if CredentialLine(lines[0]) then true else seen);
      FirstSetting(lines[0]);
      hide TableLine, CredentialLine;
      assert ([lines[0]] + rest)[1..] == rest;
    }
  }

  lemma FirstSetting(line: string)
    ensures "cli_auth_credentials_store" + " = " <= line ==> CredentialLine(line)
    ensures "cli_auth_credentials_store" + " = " <= FILE_CREDENTIAL_STORE && FILE_CREDENTIAL_STORE[29..] == "\"file\""
    ensures |"cli_auth_credentials_store"| == 26
  {
    if "cli_auth_credentials_store" + " = " <= line { SettingIsCredential(line); }
  }

  lemma SettingIsCredential(line: string)
    requires "cli_auth_credentials_store" + " = " <= line
    ensures CredentialLine(line)
  {
    var key := "cli_auth_credentials_store";
    assert line[0] == (key + " = ")[0] == 'c';
    assert CREDENTIAL_KEY == key;
    assert key <= line by { assert (key + " = ")[..|key|] == key; }
    var rest := line[|key|..];
    assert rest[0] == (key + " = ")[26] == ' ' && rest[1] == (key + " = ")[27] == '=';
    assert TrimStart(rest) == TrimStart(rest[1..]) && TrimStart(rest[1..]) == rest[1..];
  }

  /** Pinning means that a reader finds the file credential store above the first table. */
  lemma PinnedReadsFile(existing: string)
    ensures Value(UntilTable(Bounded(existing)), "cli_auth_credentials_store") == Some("\"file\"")
  {
    PinnedBound(Split(CrlfToLf(existing)));
    TrimBound(Pinned(Split(CrlfToLf(existing))), false);
    BoundEmptyEnd(TrimLines(Pinned(Split(CrlfToLf(existing)))), false);
    BoundReadsFile(Bounded(existing), false);
  }
}
