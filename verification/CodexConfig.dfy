/**
 The hub's edits of a Codex profile's config.toml: pin the file credential store, strip the hub's own
 MCP server tables, append fresh ones. The two header tests are the source's two regular expressions.
*/
module CodexConfig {
  import opened Prelude
  import opened Text
  import opened Lines

  // ---- line tests ------------------------------------------------------------------------------------

  /** Index of the first occurrence of c, or the length. */
  function IndexOfChar(t: string, c: char): (i: nat)
    ensures i <= |t| && (i < |t| ==> t[i] == c) && c !in t[..i]
  {
    if t == [] || t[0] == c then 0 else 1 + IndexOfChar(t[1..], c)
  }

  /** What `.` does not match. */
  predicate LineTerminator(c: char) {
    c == '\n' || c == '\r' || c == '\U{2028}' || c == '\U{2029}'
  }

  /** One optional closing bracket is consumed. */
  function DropClose(t: string): string {
    if t != [] && t[0] == ']' then t[1..] else t
  }

  /** /^\s*\[\[?[^\]]+\]\]?\s*(?:#.*)?$/ : what starts the first table. */
  predicate TableLine(line: string) {
    var s := TrimStart(line);
    s != [] && s[0] == '[' &&
    var k := IndexOfChar(s[1..], ']');
    1 <= k < |s| - 1 &&
    var tail := TrimStart(DropClose(s[k + 2..]));
    tail == [] || (tail[0] == '#' && forall i :: 1 <= i < |tail| ==> !LineTerminator(tail[i]))
  }

  /** /^\s*\[\[?\s*([^[\]]+?)\s*\]\]?\s*$/ : the captured table name, which allows no comment. */
  function HeaderName(line: string): Option<string> {
    var s := TrimStart(line);
    if s == [] || s[0] != '[' then None
    else
      var r := if |s| > 1 && s[1] == '[' then s[2..] else s[1..];
      var k := IndexOfChar(r, ']');
      if k == 0 || k == |r| || '[' in r[..k] || !Blank(DropClose(r[k + 1..])) then None
      else if Blank(r[..k]) then Some([r[k - 1]])
      else Some(Trim(r[..k]))
  }

  const CREDENTIAL_KEY: string := "cli_auth_" + "credentials_store"
  const FILE_CREDENTIAL_STORE: string := CREDENTIAL_KEY + " = \"file\""

  /** /^\s*cli_auth_credentials_store\s*=/ */
  predicate CredentialLine(line: string) {
    var s := TrimStart(line);
    CREDENTIAL_KEY <= s && '=' == FirstOr(TrimStart(s[|CREDENTIAL_KEY|..]), ' ')
  }

  function FirstOr(t: string, c: char): char {
    if t == [] then c else t[0]
  }

  /** A header of one of our own tables. */
  predicate OwnHeader(line: string, target: string) {
    match HeaderName(line)
    case None => false
    case Some(name) => name == target || target + "." <= name
  }

  // ---- stripping our tables -------------------------------------------------------------------------

  function Target(serverName: string): string { "mcp_servers." + serverName }

  /** The lines kept when our tables go: from each of our headers to the next header. */
  function Kept(lines: seq<string>, target: string, removing: bool): (r: seq<string>)
    ensures forall l :: l in r ==> l in lines
  {
    if lines == [] then []
    else if HeaderName(lines[0]).Some? then
      if OwnHeader(lines[0], target) then Kept(lines[1..], target, true)
      else [lines[0]] + Kept(lines[1..], target, false)
    else if removing then Kept(lines[1..], target, true)
    else [lines[0]] + Kept(lines[1..], target, false)
  }

  function Stripped(existing: string, serverName: string): string {
    TrimEnd(Squeeze(Join(Kept(Split(existing), Target(serverName), false)), 0)) + "\n"
  }

  method StripCodexAgentMcpBlock(existing: string, serverName: string) returns (text: string)
    ensures text == Stripped(existing, serverName)
  {
    var target := Target(serverName);
    var lines := Split(existing);
    var out: seq<string> := [];
    var removing := false;
    var i := 0;
    while i < |lines|
      invariant 0 <= i <= |lines|
      invariant Kept(lines, target, false) == out + Kept(lines[i..], target, removing)
    {
      var line := lines[i];
      assert lines[i..][0] == line && lines[i..][1..] == lines[i + 1..];
      i := i + 1;
      var header := HeaderName(line);
      if header.Some? {
        removing := header.value == target || target + "." <= header.value;
        if removing { continue; }
      } else if removing {
        continue;
      }
      out := out + [line];
    }
    assert lines[i..] == [] && out + [] == out;
    text := TrimEnd(Squeeze(Join(out), 0)) + "\n";
  }

  // ---- pinning the credential store ---------------------------------------------------------------------

  /** text.replace(/\r\n/g, '\n') */
  function CrlfToLf(t: string): string {
    if t == [] then []
    else if t[0] == '\r' && |t| > 1 && t[1] == '\n' then "\n" + CrlfToLf(t[2..])
    else [t[0]] + CrlfToLf(t[1..])
  }

  function FirstTable(lines: seq<string>): (k: nat)
    ensures k <= |lines|
  {
    if lines == [] || TableLine(lines[0]) then 0 else 1 + FirstTable(lines[1..])
  }

  /** The first credential line becomes ours, later ones go. */
  function Replaced(lines: seq<string>, replaced: bool): seq<string> {
    if lines == [] then []
    else if CredentialLine(lines[0]) then
      (if replaced then [] else [FILE_CREDENTIAL_STORE]) + Replaced(lines[1..], true)
    else [lines[0]] + Replaced(lines[1..], replaced)
  }

  predicate HasCredential(lines: seq<string>) {
    exists i :: 0 <= i < |lines| && CredentialLine(lines[i])
  }

  function DropEmptyEnd(lines: seq<string>): seq<string> {
    if lines != [] && lines[|lines| - 1] == [] then DropEmptyEnd(lines[..|lines| - 1]) else lines
  }

  function Pinned(lines: seq<string>): seq<string> {
    var k := FirstTable(lines);
    if HasCredential(lines[..k]) then Replaced(lines[..k], false) + lines[k..]
    else DropEmptyEnd(lines[..k]) + [FILE_CREDENTIAL_STORE] + (if k < |lines| then [[]] else []) + lines[k..]
  }

  function CredentialBound(existing: string): string {
    TrimEnd(Join(Pinned(Split(CrlfToLf(existing))))) + "\n"
  }

  lemma ReplacedStep(top: seq<string>, done: seq<string>, index: nat, replaced: bool)
    requires index < |top|
    ensures CredentialLine(top[index]) && replaced ==>
              done + Replaced(top[index..], true) == done + Replaced(top[index + 1..], true)
    ensures CredentialLine(top[index]) && !replaced ==>
              done + Replaced(top[index..], false) == done + [FILE_CREDENTIAL_STORE] + Replaced(top[index + 1..], true)
    ensures !CredentialLine(top[index]) ==>
              done + Replaced(top[index..], replaced) == done + [top[index]] + Replaced(top[index + 1..], replaced)
    ensures HasCredential(top[..index + 1]) <==> HasCredential(top[..index]) || CredentialLine(top[index])
  {
    assert top[index..][1..] == top[index + 1..];
    CredentialExtends(top[..index], top[index]);
    assert top[..index + 1] == top[..index] + [top[index]];
  }

  /** The loop over the top-level lines. */
  method ReplaceCredential(top: seq<string>) returns (topLevel: seq<string>, replaced: bool)
    ensures topLevel == Replaced(top, false) && (replaced <==> HasCredential(top))
    ensures !replaced ==> topLevel == top
  {
    replaced := false;
    topLevel := [];
    var index := 0;
    while index < |top|
      invariant 0 <= index <= |top|
      invariant replaced <==> HasCredential(top[..index])
      invariant Replaced(top, false) == topLevel + Replaced(top[index..], replaced)
      invariant !replaced ==> topLevel == top[..index]
    {
      var line := top[index];
      ReplacedStep(top, topLevel, index, replaced);
      if CredentialLine(line) {
        if !replaced { topLevel := topLevel + [FILE_CREDENTIAL_STORE]; }
        replaced := true;
      } else {
        topLevel := topLevel + [line];
      }
      index := index + 1;
    }
    assert top[index..] == [] && top[..index] == top;
  }

  /** The loop that pops trailing empty lines. */
  method PopEmpty(lines: seq<string>) returns (topLevel: seq<string>)
    ensures topLevel == DropEmptyEnd(lines)
  {
    topLevel := lines;
    while |topLevel| > 0 && topLevel[|topLevel| - 1] == []
      invariant DropEmptyEnd(lines) == DropEmptyEnd(topLevel)
    {
      topLevel := topLevel[..|topLevel| - 1];
    }
  }

  method UpsertCodexFileCredentialStore(existing: string) returns (text: string)
    ensures text == CredentialBound(existing)
  {
    var lines := Split(CrlfToLf(existing));
    var topLevelEnd := FirstTable(lines);
    var topLevel, replaced := ReplaceCredential(lines[..topLevelEnd]);
    if !replaced {
      topLevel := PopEmpty(topLevel);
      topLevel := topLevel + [FILE_CREDENTIAL_STORE];
      if topLevelEnd < |lines| { topLevel := topLevel + [[]]; }
    }
    ghost var k := topLevelEnd;
    assert replaced ==> Pinned(lines) == topLevel + lines[k..];
    assert k == |lines| ==> lines[k..] == [];
    assert !replaced ==> topLevel + lines[k..] == Pinned(lines);
    text := TrimEnd(Join(topLevel + lines[topLevelEnd..])) + "\n";
  }

  lemma CredentialExtends(lines: seq<string>, line: string)
    ensures HasCredential(lines + [line]) <==> HasCredential(lines) || CredentialLine(line)
  {
    var all := lines + [line];
    assert all[|lines|] == line;
    if i :| 0 <= i < |lines| && CredentialLine(lines[i]) {
      assert all[i] == lines[i];
    }
  }

  // ---- the fresh block -------------------------------------------------------------------------------------

  /** The options a rendered block depends on, after defaults. */
  datatype Options = Options(
    serverName: string, nodePath: string, nodeArgs: seq<string>, bridgePath: string,
    hubUrl: string, secret: string, profileId: string)

  function Escaped(s: string): string {
    if s == [] then []
    else (if s[0] == '\\' || s[0] == '"' then ['\\', s[0]] else [s[0]]) + Escaped(s[1..])
  }

  function TomlStr(s: string): string {
    "\"" + Escaped(s) + "\""
  }

  function Forward(p: string): (r: string)
    ensures |r| == |p| && forall i :: 0 <= i < |p| ==> r[i] == if p[i] == '\\' then '/' else p[i]
  {
    seq(|p|, i requires 0 <= i < |p| => if p[i] == '\\' then '/' else p[i])
  }

  function ArgList(args: seq<string>): string {
    if args == [] then [] else if |args| == 1 then TomlStr(args[0]) else TomlStr(args[0]) + ", " + ArgList(args[1..])
  }

  function BlockHeader(serverName: string): string { "[" + Target(serverName) + "]" }
  function EnvHeader(serverName: string): string { "[" + Target(serverName) + ".env]" }

  function BlockLines(o: Options): seq<string> {
    [BlockHeader(o.serverName),
     "command = " + TomlStr(o.nodePath),
     "args = [" + ArgList(o.nodeArgs + [Forward(o.bridgePath)]) + "]",
     [],
     EnvHeader(o.serverName),
     "AMA_HUB_URL = " + TomlStr(o.hubUrl),
     "AMA_HUB_SECRET = " + TomlStr(o.secret),
     "AMA_PROFILE_ID = " + TomlStr(o.profileId)]
  }

  function Rendered(o: Options): string { Join(BlockLines(o)) }

  function Upserted(existing: string, o: Options): string {
    var stripped := TrimEnd(Stripped(CredentialBound(existing), o.serverName));
    (if stripped != [] then stripped + "\n\n" else []) + Rendered(o) + "\n"
  }

  method UpsertCodexAgentMcp(existing: string, o: Options) returns (text: string)
    ensures text == Upserted(existing, o)
  {
    var credentialBound := UpsertCodexFileCredentialStore(existing);
    var stripped := StripCodexAgentMcpBlock(credentialBound, o.serverName);
    stripped := TrimEnd(stripped);
    text := (if stripped != [] then stripped + "\n\n" else []) + Rendered(o) + "\n";
  }
}
