/**
 The two managed regions of a native instruction file: operator instructions, then agent-authored
 practices, in front of the user's own text. User text and region contents are taken to be free of
 the four fences. A written file can be read back region by region; from that follow absorption,
 independence of the regions, revocation, and the solely-managed test.
*/
module Instructions {
  import opened Prelude
  import opened Search
  import opened Text

  // ---- fences ----------------------------------------------------------------------------------------

  const OP_TAIL: string := ("!-- AllMyAgents oper" + "ator instructions (m" + "anaged by the hub \U{2014}")
    + (" edit them in Settin" + "gs, not here) " + "-->")
  const OP_END_TAIL: string := "!-- /AllMyAgents ope" + "rator instructions " + "-->"
  const PRACTICE_TAIL: string := ("!-- AllMyAgents agen" + "t-authored practices" + " (written by agents,")
    + (" not the operator \U{2014} " + "auditable & revocabl" + "e in Settings) -->")
  const PRACTICE_END_TAIL: string := "!-- /AllMyAgents age" + "nt-authored practice" + "s -->"

  const OP_BEGIN: string := "<" + OP_TAIL
  const OP_END: string := "<" + OP_END_TAIL
  const PRACTICE_BEGIN: string := "<" + PRACTICE_TAIL
  const PRACTICE_END: string := "<" + PRACTICE_END_TAIL

  predicate Inner(s: string) { '<' !in s && '\n' !in s }

  /** A fence is one line whose only `<` is its first character. */
  predicate Fence(p: string) {
    p != [] && p[0] == '<' && '\n' !in p && forall i :: 1 <= i < |p| ==> p[i] != '<'
  }

  lemma InnerThree(a: string, b: string, c: string)
    requires Inner(a) && Inner(b) && Inner(c)
    ensures Inner(a + b + c)
  {
  }

  lemma TailFence(tail: string)
    requires Inner(tail)
    ensures Fence("<" + tail)
  {
  }

  lemma OpBeginFence()
    ensures Fence(OP_BEGIN)
  {
    OpFirstHalf();
    OpSecondHalf();
    TailFence(OP_TAIL);
  }

  lemma OpFirstHalf()
    ensures Inner("!-- AllMyAgents oper" + "ator instructions (m" + "anaged by the hub \U{2014}")
  {
    InnerThree("!-- AllMyAgents oper", "ator instructions (m", "anaged by the hub \U{2014}");
  }

  lemma OpSecondHalf()
    ensures Inner(" edit them in Settin" + "gs, not here) " + "-->")
  {
    InnerThree(" edit them in Settin", "gs, not here) ", "-->");
  }

  lemma OpEndFence()
    ensures Fence(OP_END)
  {
    InnerThree("!-- /AllMyAgents ope", "rator instructions ", "-->");
    TailFence(OP_END_TAIL);
  }

  lemma PracticeBeginFence()
    ensures Fence(PRACTICE_BEGIN)
  {
    PracticeFirstHalf();
    PracticeSecondHalf();
    TailFence(PRACTICE_TAIL);
  }

  lemma PracticeFirstHalf()
    ensures Inner("!-- AllMyAgents agen" + "t-authored practices" + " (written by agents,")
  {
    InnerThree("!-- AllMyAgents agen", "t-authored practices", " (written by agents,");
  }

  lemma PracticeSecondHalf()
    ensures Inner(" not the operator \U{2014} " + "auditable & revocabl" + "e in Settings) -->")
  {
    InnerThree(" not the operator \U{2014} ", "auditable & revocabl", "e in Settings) -->");
  }

  lemma PracticeEndFence()
    ensures Fence(PRACTICE_END)
  {
    InnerThree("!-- /AllMyAgents age", "nt-authored practice", "s -->");
    TailFence(PRACTICE_END_TAIL);
  }

  /** One fence occurs in another only as its beginning. */
  lemma FencesApart(p: string, q: string, i: nat)
    requires Fence(p) && Fence(q) && i < |p| && i < |q| && p[i] != q[i]
    ensures !Contains(q, p)
  {
    forall j: nat | j + |p| <= |q| ensures !OccursAt(q, p, j) {
      assert q[j..j + |p|][0] == q[j];
      assert q[j..j + |p|][i] == q[j + i];
    }
  }

  /** What the four fences are assumed to be: single lines, each begin fence outside the other region's fences. */
  ghost predicate GoodFences() {
    && Fence(OP_BEGIN) && Fence(OP_END) && Fence(PRACTICE_BEGIN) && Fence(PRACTICE_END)
    && !Contains(PRACTICE_BEGIN, OP_BEGIN) && !Contains(PRACTICE_END, OP_BEGIN)
    && !Contains(OP_BEGIN, PRACTICE_BEGIN) && !Contains(OP_END, PRACTICE_BEGIN)
  }

  lemma Marks()
    ensures |OP_TAIL| > 16 && OP_TAIL[16] == 'o' && OP_TAIL[4] == 'A'
    ensures |PRACTICE_TAIL| > 16 && PRACTICE_TAIL[16] == 'a' && PRACTICE_TAIL[4] == 'A'
    ensures |OP_END_TAIL| > 4 && OP_END_TAIL[4] == '/' && |PRACTICE_END_TAIL| > 4 && PRACTICE_END_TAIL[4] == '/'
  {
  }

  lemma TheFencesAreGood()
    ensures GoodFences()
  {
    OpBeginFence();
    OpEndFence();
    PracticeBeginFence();
    PracticeEndFence();
    Marks();
    FencesApart(OP_BEGIN, PRACTICE_BEGIN, 17);
    FencesApart(PRACTICE_BEGIN, OP_BEGIN, 17);
    FencesApart(OP_BEGIN, PRACTICE_END, 5);
    FencesApart(PRACTICE_BEGIN, OP_END, 5);
  }

  ghost predicate FenceFree(t: string) {
    !Contains(t, OP_BEGIN) && !Contains(t, OP_END) && !Contains(t, PRACTICE_BEGIN) && !Contains(t, PRACTICE_END)
  }

  // ---- the source's functions ------------------------------------------------------------------------

  function DropNewlines(t: string): string {
    if t != [] && t[0] == '\n' then DropNewlines(t[1..]) else t
  }

  /** The first region and the newlines after it are removed: the shortest match from the first begin fence. */
  function StripRegion(text: string, begin: string, end: string): string
    requires begin != [] && end != []
  {
    match First(text, begin)
    case None => text
    case Some(i) =>
      var inside := text[i + |begin|..];
      match First(inside, end)
      case None => text
      case Some(j) => text[..i] + DropNewlines(inside[j + |end|..])
  }

  function StripBoth(text: string): string {
    StripRegion(StripRegion(text, OP_BEGIN, OP_END), PRACTICE_BEGIN, PRACTICE_END)
  }

  predicate IsSolelyHubManaged(text: string) {
    (First(text, OP_BEGIN).Some? || First(text, PRACTICE_BEGIN).Some?) && Trim(StripBoth(text)) == []
  }

  function UserText(text: string): string {
    TrimStart(StripBoth(text))
  }

  function Block(begin: string, content: string, end: string): string {
    begin + "\n\n" + content + "\n\n" + end + "\n"
  }

  /** The blocks of the nonblank regions, joined by a newline. */
  function Managed(op: string, pr: string): string {
    if op == [] then (if pr == [] then [] else Block(PRACTICE_BEGIN, pr, PRACTICE_END))
    else if pr == [] then Block(OP_BEGIN, op, OP_END)
    else Block(OP_BEGIN, op, OP_END) + "\n" + Block(PRACTICE_BEGIN, pr, PRACTICE_END)
  }

  function Compose(op: string, pr: string, user: string): string {
    if op == [] && pr == [] then user
    else if user == [] then Managed(op, pr)
    else Managed(op, pr) + "\n" + user
  }

  /** The text the file holds after writeManagedInstructions. */
  function WrittenText(text: string, operator: string, practices: string): string {
    Compose(Trim(operator), Trim(practices), UserText(text))
  }

  /** The file itself: None is a missing (or unreadable) file. */
  function Written(file: Option<string>, operator: string, practices: string): Option<string> {
    var existing := if file.Some? then file.value else [];
    var text := WrittenText(existing, operator, practices);
    if text != [] then Some(text) else if existing != [] then None else file
  }

  class InstructionFile {
    var content: Option<string>

    constructor (content: Option<string>)
      ensures this.content == content
    {
      this.content := content;
    }

    method WriteManagedInstructions(operator: string, practices: string)
      modifies this
      ensures content == Written(old(content), operator, practices)
    {
      var existing := if content.Some? then content.value else [];
      var stripped := TrimStart(StripRegion(StripRegion(existing, OP_BEGIN, OP_END), PRACTICE_BEGIN, PRACTICE_END));
      var blocks: seq<string> := [];
      var op, pr := Trim(operator), Trim(practices);
      if op != [] { blocks := blocks + [Block(OP_BEGIN, op, OP_END)]; }
      if pr != [] { blocks := blocks + [Block(PRACTICE_BEGIN, pr, PRACTICE_END)]; }
      if |blocks| == 0 {
        if stripped != [] {
          content := Some(stripped);
        } else if existing != [] {
          content := None;
        }
        return;
      }
      var managed := if |blocks| == 1 then blocks[0] else blocks[0] + "\n" + blocks[1];
      content := Some(if stripped != [] then managed + "\n" + stripped else managed);
    }
  }

  // ---- trimming -----------------------------------------------------------------------------------------

  lemma {:induction false} TrimStartSuffix(t: string) returns (n: nat)
    ensures n <= |t| && TrimStart(t) == t[n..] && Blank(t[..n])
    ensures TrimStart(t) != [] ==> !IsSpace(TrimStart(t)[0])
  {
    hide IsSpace;
    if t != [] && IsSpace(t[0]) {
      var m := TrimStartSuffix(t[1..]);
      n := m + 1;
      assert t[1..][m..] == t[n..];
      assert t[..n] == [t[0]] + t[1..][..m];
    } else {
      n := 0;
    }
  }

  lemma TrimStartTwice(t: string)
    ensures TrimStart(TrimStart(t)) == TrimStart(t)
    ensures DropNewlines(TrimStart(t)) == TrimStart(t)
  {
    var n := TrimStartSuffix(t);
  }

  lemma TrimEmpty(t: string)
    ensures TrimStart(t) == [] <==> Blank(t)
    ensures Trim(t) == [] <==> Blank(t)
  {
    TrimStartEmpty(t);
    TrimEndEmpty(TrimStart(t));
  }

  lemma SliceOfSlice<T>(t: seq<T>, i: nat, j: nat, k: nat, m: nat)
    requires i <= j <= |t| && k <= m <= j - i
    ensures t[i..j][k..m] == t[i + k..i + m]
  {
    var a, b := t[i..j][k..m], t[i + k..i + m];
    forall x | 0 <= x < |a| ensures a[x] == b[x] { assert a[x] == t[i..j][k + x]; }
  }

  lemma PartFree(t: string, i: nat, j: nat, p: string)
    requires i <= j <= |t| && !Contains(t, p)
    ensures !Contains(t[i..j], p)
  {
    forall k: nat | k <= |t[i..j]| ensures !OccursAt(t[i..j], p, k) {
      NowhereIn(t, p, i + k);
      if k + |p| <= j - i { SliceOfSlice(t, i, j, k, k + |p|); }
    }
  }

  lemma TrimFree(t: string, p: string)
    requires !Contains(t, p)
    ensures !Contains(TrimStart(t), p) && !Contains(Trim(t), p)
  {
    var n := TrimStartSuffix(t);
    PartFree(t, n, |t|, p);
    assert t[n..|t|] == t[n..];
    var m := TrimEndPart(TrimStart(t));
    PartFree(TrimStart(t), 0, m, p);
    assert TrimStart(t)[0..m] == TrimStart(t)[..m];
  }

  lemma TrimFenceFree(t: string)
    requires FenceFree(t)
    ensures FenceFree(TrimStart(t)) && FenceFree(Trim(t))
  {
    TrimFree(t, OP_BEGIN);
    TrimFree(t, OP_END);
    TrimFree(t, PRACTICE_BEGIN);
    TrimFree(t, PRACTICE_END);
  }

  // ---- one region ------------------------------------------------------------------------------------------

  lemma EmptyFree(p: string)
    requires p != []
    ensures !Contains([], p)
  {
  }

  /** A block contains a one-line pattern only inside its fences or its content. */
  lemma BlockFree(b: string, c: string, e: string, p: string)
    requires p != [] && '\n' !in p && !Contains(b, p) && !Contains(c, p) && !Contains(e, p)
    ensures !Contains(Block(b, c, e), p)
  {
    EmptyFree(p);
    ContainsSide(b, [], p);
    ContainsSide(b + "\n" + [], c, p);
    ContainsSide(b + "\n" + [] + "\n" + c, [], p);
    ContainsSide(b + "\n" + [] + "\n" + c + "\n" + [], e, p);
    ContainsSide(b + "\n" + [] + "\n" + c + "\n" + [] + "\n" + e, [], p);
    assert b + "\n" + [] + "\n" + c + "\n" + [] + "\n" + e + "\n" + [] == Block(b, c, e);
  }

  /** Between the fences of a block at the front: its content, padded by blank lines. */
  lemma BlockFound(b: string, c: string, e: string, rest: string)
    requires b != [] && e != [] && '\n' !in e && !Contains(c, e)
    ensures var text := Block(b, c, e) + rest;
            First(text, b) == Some(0) && First(text[|b|..], e) == Some(|c| + 4)
            && text[|b|..][..|c| + 4] == "\n\n" + c + "\n\n"
            && text[|b|..][|c| + 4 + |e|..] == "\n" + rest
  {
    var z := "\n\n" + c + "\n\n";
    BlockLayout(b, c, e, rest);
    FirstHere(b, z + (e + ("\n" + rest)));
    ContentFree(c, z, e);
    FoundBehind("\n\n" + c + "\n", z, e, "\n" + rest);
    Parts(z, e, "\n" + rest);
  }

  lemma BlockLayout(b: string, c: string, e: string, rest: string)
    ensures var inside := "\n\n" + c + "\n\n" + (e + ("\n" + rest));
            Block(b, c, e) + rest == b + inside && (b + inside)[|b|..] == inside
  {
  }

  lemma ContentFree(c: string, z: string, e: string)
    requires z == "\n\n" + c + "\n\n" && e != [] && '\n' !in e && !Contains(c, e)
    ensures z == ("\n\n" + c + "\n") + "\n" && !Contains("\n\n" + c + "\n", e)
  {
    PaddedFree(c, e);
  }

  lemma FoundBehind(x: string, z: string, e: string, rest: string)
    requires z == x + "\n" && e != [] && '\n' !in e && !Contains(x, e)
    ensures First(z + (e + rest), e) == Some(|z|)
  {
    FirstHere(e, rest);
    FirstAfter(x, e + rest, e);
    BehindOne(x, e + rest);
  }

  lemma Parts(x: string, y: string, z: string)
    ensures (x + (y + z))[..|x|] == x && (x + (y + z))[|x| + |y|..] == z
  {
  }

  lemma PaddedFree(c: string, e: string)
    requires e != [] && '\n' !in e && !Contains(c, e)
    ensures !Contains("\n\n" + c + "\n", e)
  {
    EmptyFree(e);
    ContainsSide([], [], e);
    ContainsSide([] + "\n" + [], c, e);
    ContainsSide([] + "\n" + [] + "\n" + c, [], e);
    assert [] + "\n" + [] + "\n" + c + "\n" + [] == "\n\n" + c + "\n";
  }

  lemma StripFound(text: string, b: string, e: string, k: nat, tail: string)
    requires b != [] && e != [] && First(text, b) == Some(0) && First(text[|b|..], e) == Some(k)
    requires text[|b|..][k + |e|..] == tail
    ensures StripRegion(text, b, e) == DropNewlines(tail)
  {
    assert text[..0] + DropNewlines(tail) == DropNewlines(tail);
  }

  lemma StripBlock(b: string, c: string, e: string, rest: string)
    requires b != [] && e != [] && '\n' !in e && !Contains(c, e)
    ensures StripRegion(Block(b, c, e) + rest, b, e) == DropNewlines(rest)
  {
    BlockFound(b, c, e, rest);
    StripFound(Block(b, c, e) + rest, b, e, |c| + 4, "\n" + rest);
    assert ("\n" + rest)[1..] == rest;
  }

  // ---- both regions ------------------------------------------------------------------------------------------

  /** What follows the managed blocks. */
  function After(user: string): string {
    if user == [] then [] else "\n" + user
  }

  lemma AfterDropped(user: string)
    requires TrimStart(user) == user
    ensures DropNewlines(After(user)) == user
  {
    TrimStartTwice(user);
    if user != [] { assert ("\n" + user)[1..] == user; }
  }

  lemma BlockAfterFree(b: string, c: string, e: string, user: string, p: string)
    requires p != [] && '\n' !in p && !Contains(b, p) && !Contains(c, p) && !Contains(e, p) && !Contains(user, p)
    ensures !Contains(Block(b, c, e) + After(user), p)
  {
    BlockFree(b, c, e, p);
    if user == [] {
      assert Block(b, c, e) + [] == Block(b, c, e);
    } else {
      ContainsSide(Block(b, c, e), user, p);
      assert Block(b, c, e) + "\n" + user == Block(b, c, e) + ("\n" + user);
    }
  }

  lemma JoinBoth(x: string, y: string, user: string)
    ensures (if user == [] then x + "\n" + y else x + "\n" + y + "\n" + user) == x + ("\n" + (y + After(user)))
  {
  }

  lemma JoinOne(x: string, user: string)
    ensures (if user == [] then x else x + "\n" + user) == x + After(user)
  {
  }

  /** The composed text, by its first block. */
  lemma ComposeShape(op: string, pr: string, user: string)
    ensures op != [] && pr != [] ==>
              Compose(op, pr, user) == Block(OP_BEGIN, op, OP_END) + ("\n" + (Block(PRACTICE_BEGIN, pr, PRACTICE_END) + After(user)))
    ensures op != [] && pr == [] ==> Compose(op, pr, user) == Block(OP_BEGIN, op, OP_END) + After(user)
    ensures op == [] && pr != [] ==> Compose(op, pr, user) == Block(PRACTICE_BEGIN, pr, PRACTICE_END) + After(user)
  {
    var x, y := Block(OP_BEGIN, op, OP_END), Block(PRACTICE_BEGIN, pr, PRACTICE_END);
    JoinBoth(x, y, user);
    JoinOne(x, user);
    JoinOne(y, user);
  }

  lemma PracticeBlockStart(pr: string, user: string)
    ensures DropNewlines("\n" + (Block(PRACTICE_BEGIN, pr, PRACTICE_END) + After(user)))
            == Block(PRACTICE_BEGIN, pr, PRACTICE_END) + After(user)
  {
    var t := Block(PRACTICE_BEGIN, pr, PRACTICE_END) + After(user);
    assert t[0] == PRACTICE_BEGIN[0] == '<';
    assert ("\n" + t)[1..] == t;
  }

  /** Stripping the operator region leaves exactly the composition without it. */
  lemma StripOperator(op: string, pr: string, user: string)
    requires FenceFree(op) && FenceFree(pr) && FenceFree(user) && TrimStart(user) == user
    ensures StripRegion(Compose(op, pr, user), OP_BEGIN, OP_END) == Compose([], pr, user)
  {
    TheFencesAreGood();
    ComposeShape(op, pr, user);
    ComposeShape([], pr, user);
    AfterDropped(user);
    if op != [] && pr != [] {
      StripBlock(OP_BEGIN, op, OP_END, "\n" + (Block(PRACTICE_BEGIN, pr, PRACTICE_END) + After(user)));
      PracticeBlockStart(pr, user);
    } else if op != [] {
      StripBlock(OP_BEGIN, op, OP_END, After(user));
    } else if pr != [] {
      BlockAfterFree(PRACTICE_BEGIN, pr, PRACTICE_END, user, OP_BEGIN);
      FirstNone(Compose(op, pr, user), OP_BEGIN);
    } else {
      FirstNone(user, OP_BEGIN);
    }
  }

  /** Stripping both regions of a composed text gives the user text back, exactly. */
  lemma ComposedUserText(op: string, pr: string, user: string)
    requires FenceFree(op) && FenceFree(pr) && FenceFree(user) && TrimStart(user) == user
    ensures StripBoth(Compose(op, pr, user)) == user && UserText(Compose(op, pr, user)) == user
  {
    TheFencesAreGood();
    StripOperator(op, pr, user);
    ComposeShape([], pr, user);
    AfterDropped(user);
    if pr != [] {
      StripBlock(PRACTICE_BEGIN, pr, PRACTICE_END, After(user));
    } else {
      FirstNone(user, PRACTICE_BEGIN);
    }
  }

  /** What a file's region holds, between its fences. */
  function Region(text: string, begin: string, end: string): Option<string>
    requires begin != [] && end != []
  {
    match Behind(text, begin)
    case None => None
    case Some(inside) => Before(inside, end)
  }

  function Behind(text: string, begin: string): Option<string>
    requires begin != []
  {
    match First(text, begin)
    case None => None
    case Some(i) => Some(text[i + |begin|..])
  }

  function Before(inside: string, end: string): Option<string>
    requires end != []
  {
    match First(inside, end)
    case None => None
    case Some(j) => Some(inside[..j])
  }

  function Padded(content: string): Option<string> {
    if content == [] then None else Some("\n\n" + content + "\n\n")
  }

  lemma OperatorRegion(op: string, pr: string, user: string)
    requires FenceFree(op) && FenceFree(pr) && FenceFree(user)
    ensures Region(Compose(op, pr, user), OP_BEGIN, OP_END) == Padded(op)
  {
    TheFencesAreGood();
    ComposeShape(op, pr, user);
    if op != [] && pr != [] {
      BlockRegion(OP_BEGIN, op, OP_END, "\n" + (Block(PRACTICE_BEGIN, pr, PRACTICE_END) + After(user)));
    } else if op != [] {
      BlockRegion(OP_BEGIN, op, OP_END, After(user));
    } else if pr != [] {
      BlockAfterFree(PRACTICE_BEGIN, pr, PRACTICE_END, user, OP_BEGIN);
      FirstNone(Compose(op, pr, user), OP_BEGIN);
    } else {
      FirstNone(user, OP_BEGIN);
    }
  }

  lemma BlockRegion(b: string, c: string, e: string, rest: string)
    requires b != [] && e != [] && '\n' !in e && !Contains(c, e)
    ensures Region(Block(b, c, e) + rest, b, e) == Some("\n\n" + c + "\n\n")
  {
    BlockFound(b, c, e, rest);
  }

  lemma DropBehind(x: string, y: string, k: nat)
    requires k <= |y|
    ensures (x + "\n" + y)[|x| + 1 + k..] == y[k..]
  {
  }

  /** A region is found behind text that does not contain its begin fence. */
  lemma RegionBehind(x: string, y: string, b: string, e: string)
    requires b != [] && e != [] && '\n' !in b && !Contains(x, b)
    ensures Region(x + "\n" + y, b, e) == Region(y, b, e)
  {
    BehindSame(x, y, b);
  }

  lemma BehindSame(x: string, y: string, b: string)
    requires b != [] && '\n' !in b && !Contains(x, b)
    ensures Behind(x + "\n" + y, b) == Behind(y, b)
  {
    FirstAfter(x, y, b);
    var i := First(y, b);
    if i.Some? { DropBehind(x, y, i.value + |b|); }
  }

  lemma PracticeRegion(op: string, pr: string, user: string)
    requires FenceFree(op) && FenceFree(pr) && FenceFree(user)
    ensures Region(Compose(op, pr, user), PRACTICE_BEGIN, PRACTICE_END) == Padded(pr)
  {
    TheFencesAreGood();
    ComposeShape(op, pr, user);
    if pr != [] {
      BlockRegion(PRACTICE_BEGIN, pr, PRACTICE_END, After(user));
      if op != [] {
        BlockFree(OP_BEGIN, op, OP_END, PRACTICE_BEGIN);
        RegionBehind(Block(OP_BEGIN, op, OP_END), Block(PRACTICE_BEGIN, pr, PRACTICE_END) + After(user), PRACTICE_BEGIN, PRACTICE_END);
        BehindOne(Block(OP_BEGIN, op, OP_END), Block(PRACTICE_BEGIN, pr, PRACTICE_END) + After(user));
      }
    } else if op != [] {
      BlockAfterFree(OP_BEGIN, op, OP_END, user, PRACTICE_BEGIN);
      FirstNone(Compose(op, pr, user), PRACTICE_BEGIN);
    } else {
      FirstNone(user, PRACTICE_BEGIN);
    }
  }

  lemma BehindOne(x: string, y: string)
    ensures x + ("\n" + y) == x + "\n" + y
  {
  }

  // ---- theorems -------------------------------------------------------------------------------------------------

  lemma PlainUserText(text: string)
    requires FenceFree(text)
    ensures UserText(text) == TrimStart(text)
  {
    TheFencesAreGood();
    FirstNone(text, OP_BEGIN);
    FirstNone(text, PRACTICE_BEGIN);
  }

  /** Everything about a written file is there to be read back: both regions and the user text. */
  lemma WrittenReadsBack(text: string, operator: string, practices: string)
    requires FenceFree(text) && FenceFree(operator) && FenceFree(practices)
    ensures var w := WrittenText(text, operator, practices);
            && Region(w, OP_BEGIN, OP_END) == Padded(Trim(operator))
            && Region(w, PRACTICE_BEGIN, PRACTICE_END) == Padded(Trim(practices))
            && StripBoth(w) == UserText(w) == TrimStart(text)
  {
    TrimFenceFree(text);
    TrimFenceFree(operator);
    TrimFenceFree(practices);
    TrimStartTwice(text);
    PlainUserText(text);
    OperatorRegion(Trim(operator), Trim(practices), TrimStart(text));
    PracticeRegion(Trim(operator), Trim(practices), TrimStart(text));
    ComposedUserText(Trim(operator), Trim(practices), TrimStart(text));
  }

  lemma BlockStart(b: string, c: string, e: string, rest: string)
    requires b != []
    ensures First(Block(b, c, e) + rest, b) == Some(0)
  {
    var tail := "\n\n" + c + "\n\n" + e + "\n" + rest;
    assert Block(b, c, e) + rest == b + tail;
    FirstHere(b, tail);
  }

  lemma EndsInUser(x: string, user: string)
    ensures var w := x + After(user); |user| <= |w| && w[|w| - |user|..] == user
  {
  }

  lemma BehindBlock(x: string, y: string, user: string)
    ensures x + ("\n" + (y + After(user))) == (x + "\n" + y) + After(user)
  {
  }

  /** Managed regions come first, operator before practices, and the user text stands at the end. */
  lemma WrittenInOrder(text: string, operator: string, practices: string)
    requires FenceFree(text)
    ensures var w, user := WrittenText(text, operator, practices), TrimStart(text);
            && |user| <= |w| && w[|w| - |user|..] == user
            && (!Blank(operator) ==> First(w, OP_BEGIN) == Some(0))
            && (Blank(operator) && !Blank(practices) ==> First(w, PRACTICE_BEGIN) == Some(0))
            && (Blank(operator) && Blank(practices) ==> w == user)
  {
    PlainUserText(text);
    TrimEmpty(operator);
    TrimEmpty(practices);
    var op, pr, user := Trim(operator), Trim(practices), TrimStart(text);
    var x, y := Block(OP_BEGIN, op, OP_END), Block(PRACTICE_BEGIN, pr, PRACTICE_END);
    ComposeShape(op, pr, user);
    hide Block, First, After;
    BlockStart(OP_BEGIN, op, OP_END, "\n" + (y + After(user)));
    BlockStart(OP_BEGIN, op, OP_END, After(user));
    BlockStart(PRACTICE_BEGIN, pr, PRACTICE_END, After(user));
    BehindBlock(x, y, user);
    EndsInUser(x + "\n" + y, user);
    EndsInUser(x, user);
    EndsInUser(y, user);
  }

  /** A later write leaves no trace of an earlier one. */
  lemma LaterWriteAbsorbs(text: string, o1: string, p1: string, o2: string, p2: string)
    requires FenceFree(text) && FenceFree(o1) && FenceFree(p1)
    ensures WrittenText(WrittenText(text, o1, p1), o2, p2) == WrittenText(text, o2, p2)
  {
    WrittenReadsBack(text, o1, p1);
    PlainUserText(text);
  }

  /** Rewriting one region leaves the other region and the user text as they were. */
  lemma RegionsIndependent(text: string, o1: string, p1: string, o2: string, p2: string)
    requires FenceFree(text) && FenceFree(o1) && FenceFree(p1) && FenceFree(o2) && FenceFree(p2)
    ensures var w := WrittenText(text, o1, p1);
            && Region(WrittenText(w, o2, p1), PRACTICE_BEGIN, PRACTICE_END) == Region(w, PRACTICE_BEGIN, PRACTICE_END)
            && Region(WrittenText(w, o1, p2), OP_BEGIN, OP_END) == Region(w, OP_BEGIN, OP_END)
            && UserText(WrittenText(w, o2, p2)) == UserText(w)
  {
    LaterWriteAbsorbs(text, o1, p1, o2, p1);
    LaterWriteAbsorbs(text, o1, p1, o1, p2);
    LaterWriteAbsorbs(text, o1, p1, o2, p2);
    WrittenReadsBack(text, o1, p1);
    WrittenReadsBack(text, o2, p1);
    WrittenReadsBack(text, o1, p2);
    WrittenReadsBack(text, o2, p2);
  }

  /** Writing blanks revokes both regions: the user text minus its leading whitespace is left. */
  lemma BlanksRestore(text: string, o: string, p: string, b1: string, b2: string)
    requires FenceFree(text) && FenceFree(o) && FenceFree(p) && Blank(b1) && Blank(b2)
    ensures WrittenText(WrittenText(text, o, p), b1, b2) == TrimStart(text)
  {
    LaterWriteAbsorbs(text, o, p, b1, b2);
    PlainUserText(text);
    TrimEmpty(b1);
    TrimEmpty(b2);
  }

  /** A written file counts as solely the hub's exactly when a region was written and the user text is blank. */
  lemma SolelyManagedExactly(text: string, operator: string, practices: string)
    requires FenceFree(text) && FenceFree(operator) && FenceFree(practices)
    ensures IsSolelyHubManaged(WrittenText(text, operator, practices)) <==>
            Blank(text) && !(Blank(operator) && Blank(practices))
  {
    var w := WrittenText(text, operator, practices);
    WrittenReadsBack(text, operator, practices);
    TrimEmpty(text);
    TrimEmpty(operator);
    TrimEmpty(practices);
    TrimEmpty(TrimStart(text));
    TrimStartTwice(text);
    NoRegionNoFence(text, operator, practices);
  }

  lemma NoRegionNoFence(text: string, operator: string, practices: string)
    requires FenceFree(text)
    ensures Trim(operator) == [] && Trim(practices) == [] ==>
              var w := WrittenText(text, operator, practices); First(w, OP_BEGIN).None? && First(w, PRACTICE_BEGIN).None?
  {
    PlainUserText(text);
    TrimFenceFree(text);
    FirstNone(TrimStart(text), OP_BEGIN);
    FirstNone(TrimStart(text), PRACTICE_BEGIN);
  }

  function TextOf(file: Option<string>): string {
    if file.Some? then file.value else []
  }

  /** Writing the same regions twice is writing them once, file for file. */
  lemma WritingTwiceIsOnce(file: Option<string>, o: string, p: string)
    requires FenceFree(TextOf(file)) && FenceFree(o) && FenceFree(p)
    ensures Written(Written(file, o, p), o, p) == Written(file, o, p)
  {
    LaterWriteAbsorbs(TextOf(file), o, p, o, p);
    BlankText(TextOf(file), o, p);
  }

  lemma BlankText(text: string, o: string, p: string)
    requires FenceFree(text)
    ensures WrittenText(text, o, p) == [] <==> Blank(text) && Blank(o) && Blank(p)
    ensures WrittenText([], o, p) == [] <==> Blank(o) && Blank(p)
  {
    PlainUserText(text);
    EmptyFree(OP_BEGIN); EmptyFree(OP_END); EmptyFree(PRACTICE_BEGIN); EmptyFree(PRACTICE_END);
    PlainUserText([]);
    TrimEmpty(text);
    TrimEmpty(o);
    TrimEmpty(p);
  }

  /** The file holds the written text; if there is nothing to hold it goes, unless it was there and empty before. */
  lemma FileDecides(file: Option<string>, o: string, p: string)
    requires FenceFree(TextOf(file))
    ensures Written(file, o, p) ==
            if !(Blank(TextOf(file)) && Blank(o) && Blank(p)) then Some(WrittenText(TextOf(file), o, p))
            else if file == Some([]) then file
            else None
  {
    BlankText(TextOf(file), o, p);
  }

  /**
  An earlier write leaves no trace on the file either, except one: an empty file that was given regions
  is deleted by a later blank write, while a blank write alone would have kept it.
  */
  lemma FileAbsorbsExactly(file: Option<string>, o1: string, p1: string, o2: string, p2: string)
    requires FenceFree(TextOf(file)) && FenceFree(o1) && FenceFree(p1)
    ensures Written(Written(file, o1, p1), o2, p2) == Written(file, o2, p2) <==>
            !(file == Some([]) && !(Blank(o1) && Blank(p1)) && Blank(o2) && Blank(p2))
  {
    var text := TextOf(file);
    LaterWriteAbsorbs(text, o1, p1, o2, p2);
    BlankText(text, o1, p1);
    BlankText(text, o2, p2);
  }

  /** The input: an empty file, then regions, then blanks. */
  lemma EmptyFileDeleted(o: string, p: string)
    requires FenceFree(o) && FenceFree(p) && !(Blank(o) && Blank(p))
    ensures Written(Written(Some([]), o, p), [], []) != Written(Some([]), [], [])
  {
    EmptyFree(OP_BEGIN); EmptyFree(OP_END); EmptyFree(PRACTICE_BEGIN); EmptyFree(PRACTICE_END);
    FileAbsorbsExactly(Some([]), o, p, [], []);
  }
}
