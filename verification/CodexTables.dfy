/**
 What strip promises about other tables, against what it does. A table of ours should end at the next
 table header of any kind; the strip pass, whose header expression allows no comment, ends it only at a
 header without one. The lines it keeps are the promised ones exactly if no commented header lies in a
 table of ours as the pass reads it.
*/
module CodexTables {
  import opened Prelude
  import opened Text
  import opened Lines
  import opened CodexConfig
  import opened CodexLineFacts
  import opened CodexConfigLaws

  /**
   The strip pass takes the line to be in a table of ours: the last header at or above it is one of
   ours, or there is none and `before` says so.
  */
  predicate Ours(lines: seq<string>, target: string, before: bool, i: nat)
    requires i < |lines|
  {
    if HeaderName(lines[i]).Some? then OwnHeader(lines[i], target)
    else if i == 0 then before
    else Ours(lines, target, before, i - 1)
  }

  lemma {:induction false} OursShift(lines: seq<string>, target: string, before: bool, i: nat)
    requires i + 1 < |lines|
    ensures Ours(lines, target, before, i + 1) == Ours(lines[1..], target, Ours(lines, target, before, 0), i)
  {
    if i > 0 { OursShift(lines, target, before, i - 1); }
  }

  /** The lines kept if a table header of any kind ends our tables. */
  function TablesKept(lines: seq<string>, target: string, removing: bool): seq<string> {
    if lines == [] then []
    else if OwnHeader(lines[0], target) then TablesKept(lines[1..], target, true)
    else if removing && !TableLine(lines[0]) then TablesKept(lines[1..], target, true)
    else [lines[0]] + TablesKept(lines[1..], target, false)
  }

  /** A table header that is none to the strip pass, in what the pass takes to be a table of ours. */
  ghost predicate Swallows(lines: seq<string>, target: string, before: bool) {
    exists j :: 0 <= j < |lines| && TableLine(lines[j]) && HeaderName(lines[j]).None? && Ours(lines, target, before, j)
  }

  lemma SwallowsStep(lines: seq<string>, target: string, before: bool)
    requires lines != []
    ensures Swallows(lines, target, before) <==>
              (TableLine(lines[0]) && HeaderName(lines[0]).None? && before)
              || Swallows(lines[1..], target, Ours(lines, target, before, 0))
  {
    hide TableLine, HeaderName, OwnHeader;
    var rest, flag := lines[1..], Ours(lines, target, before, 0);
    if j :| 0 <= j < |lines| && TableLine(lines[j]) && HeaderName(lines[j]).None? && Ours(lines, target, before, j) {
      if j > 0 {
        OursShift(lines, target, before, j - 1);
        assert rest[j - 1] == lines[j];
      }
    }
    if j :| 0 <= j < |rest| && TableLine(rest[j]) && HeaderName(rest[j]).None? && Ours(rest, target, flag, j) {
      OursShift(lines, target, before, j);
      assert lines[j + 1] == rest[j];
    }
  }

  lemma SignificantCons(line: string, rest: seq<string>)
    ensures Significant([line] + rest) == (if Blank(line) then [] else [TrimEnd(line)]) + Significant(rest)
  {
    assert ([line] + rest)[1..] == rest;
  }

  lemma TableIsText(line: string)
    requires TableLine(line)
    ensures !Blank(line)
  {
    if Blank(line) { BlankLine(line); }
  }

  lemma OwnIsHeader(line: string, target: string)
    ensures OwnHeader(line, target) ==> HeaderName(line).Some?
    ensures HeaderName(line).Some? ==> TableLine(line)
  {
    if HeaderName(line).Some? { HeaderIsTable(line); }
  }

  /** Ending our tables earlier never keeps less text. */
  lemma {:induction false} KeepsNoLess(lines: seq<string>, target: string)
    ensures forall r :: |Significant(Kept(lines, target, r))| <= |Significant(TablesKept(lines, target, r))|
    ensures |Significant(Kept(lines, target, true))| <= |Significant(TablesKept(lines, target, false))|
  {
    if lines != [] {
      KeepsNoLess(lines[1..], target);
      OwnIsHeader(lines[0], target);
      hide TableLine, HeaderName, OwnHeader, Significant;
      SignificantCons(lines[0], Kept(lines[1..], target, false));
      SignificantCons(lines[0], TablesKept(lines[1..], target, false));
      SignificantCons(lines[0], TablesKept(lines[1..], target, true));
      SignificantCons(lines[0], Kept(lines[1..], target, true));
    }
  }

  /** The strip pass keeps the promised lines exactly if it swallows no table. */
  lemma {:induction false} KeptExactly(lines: seq<string>, target: string, removing: bool)
    ensures !Swallows(lines, target, removing) ==> Kept(lines, target, removing) == TablesKept(lines, target, removing)
    ensures Swallows(lines, target, removing) ==>
              |Significant(Kept(lines, target, removing))| < |Significant(TablesKept(lines, target, removing))|
  {
    if lines != [] {
      SwallowsStep(lines, target, removing);
      var flag := Ours(lines, target, removing, 0);
      KeptExactly(lines[1..], target, flag);
      KeepsNoLess(lines[1..], target);
      OwnIsHeader(lines[0], target);
      if TableLine(lines[0]) { TableIsText(lines[0]); }
      hide TableLine, HeaderName, OwnHeader, Significant, Swallows, Blank;
      SignificantCons(lines[0], Kept(lines[1..], target, false));
      SignificantCons(lines[0], TablesKept(lines[1..], target, false));
    }
  }

  /**
   Tables other than ours stay untouched by a strip exactly if no header with a comment lies in what the
   strip pass takes to be a table of ours.
  */
  lemma OtherTablesKeptExactly(lines: seq<string>, target: string)
    ensures Kept(lines, target, false) == TablesKept(lines, target, false) <==> !Swallows(lines, target, false)
  {
    KeptExactly(lines, target, false);
  }

  /** Credential lines above the first table have no part in it. */
  lemma {:induction false} SwallowsDropped(lines: seq<string>, target: string)
    ensures Swallows(DropCredential(lines), target, false) <==> Swallows(lines, target, false)
  {
    if lines != [] && !TableLine(lines[0]) {
      OwnIsHeader(lines[0], target);
      SwallowsDropped(lines[1..], target);
      SwallowsStep(lines, target, false);
      var rest := DropCredential(lines[1..]);
      hide TableLine, HeaderName, OwnHeader, CredentialLine, Swallows;
      if !CredentialLine(lines[0]) {
        SwallowsStep([lines[0]] + rest, target, false);
        assert ([lines[0]] + rest)[1..] == rest;
      } else {
        assert [] + rest == rest;
      }
    }
  }

  /**
   The whole upsert: besides the pinned credential line, what it leaves above the fresh block are the
   promised lines of the file, up to blank lines and trailing whitespace, under the same exact condition.
  */
  lemma UpsertKeepsOtherTablesExactly(x: string, serverName: string)
    ensures var lines, target := Split(CrlfToLf(x)), Target(serverName);
            Significant(DropCredential(Body(x, serverName))) == Significant(TablesKept(DropCredential(lines), target, false))
            <==> !Swallows(lines, target, false)
  {
    var lines, target := Split(CrlfToLf(x)), Target(serverName);
    ForeignLinesSurvive(x, serverName);
    KeptExactly(DropCredential(lines), target, false);
    SwallowsDropped(lines, target);
  }

  /** A commented header right after one of ours is such a case, whatever follows. */
  lemma CommentedTableSwallowed(serverName: string, name: string, note: string, lines: seq<string>)
    requires Recognised(serverName)
    requires name != [] && !IsSpace(name[0]) && '[' !in name && ']' !in name
    requires forall i :: 0 <= i < |note| ==> !LineTerminator(note[i])
    ensures Swallows([BlockHeader(serverName), Commented(name, note)] + lines, Target(serverName), false)
  {
    var all, target := [BlockHeader(serverName), Commented(name, note)] + lines, Target(serverName);
    OwnHeaderExactly(serverName);
    CommentedHeader(name, note);
    hide HeaderName, OwnHeader, TableLine, Commented, BlockHeader;
    OwnIsHeader(all[0], target);
    assert Ours(all, target, false, 0);
    assert Ours(all, target, false, 1);
    assert TableLine(all[1]) && HeaderName(all[1]).None?;
  }
}
