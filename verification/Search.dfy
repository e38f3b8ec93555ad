/**
 Substring search: the first occurrence of a pattern in a text, as indexOf finds it, and where it is
 when text is put in front of the pattern or behind it. The managed regions of an instruction file are
 found again by their fences, so this is what tells the parts of a written file apart, whatever stands
 in the regions and in the text of the user.
*/
module Search {
  import opened Prelude

  predicate OccursAt(text: string, p: string, i: nat) {
    i + |p| <= |text| && text[i..i + |p|] == p
  }

  ghost predicate Contains(text: string, p: string) {
    exists i: nat :: i <= |text| && OccursAt(text, p, i)
  }

  lemma NowhereIn(text: string, p: string, i: nat)
    requires !Contains(text, p) && i <= |text|
    ensures !OccursAt(text, p, i)
  {
  }

  /** The first index at which p occurs. */
  function First(text: string, p: string): (r: Option<nat>)
    requires p != []
    ensures r.Some? ==> r.value + |p| <= |text|
    decreases |text|
  {
    if |text| < |p| then None
    else if text[..|p|] == p then Some(0)
    else
      match First(text[1..], p)
      case None => None
      case Some(i) => Some(i + 1)
  }

  lemma Shifted(text: string, p: string, j: nat)
    requires text != [] && 1 <= j
    ensures OccursAt(text, p, j) <==> OccursAt(text[1..], p, j - 1)
  {
    if j + |p| <= |text| { assert text[1..][j - 1..j - 1 + |p|] == text[j..j + |p|]; }
  }

  /** First finds the least occurrence, or there is none. */
  lemma {:induction false} FirstLeast(text: string, p: string)
    requires p != []
    ensures First(text, p).Some? ==>
              OccursAt(text, p, First(text, p).value) && forall j: nat :: j < First(text, p).value ==> !OccursAt(text, p, j)
    ensures First(text, p).None? ==> forall j: nat :: !OccursAt(text, p, j)
    decreases |text|
  {
    if |text| >= |p| && text[..|p|] != p {
      FirstLeast(text[1..], p);
      forall j: nat | 1 <= j ensures OccursAt(text, p, j) <==> OccursAt(text[1..], p, j - 1) { Shifted(text, p, j); }
    }
  }

  /** The least occurrence is the only answer First can give. */
  lemma FirstIs(text: string, p: string, i: nat)
    requires p != [] && OccursAt(text, p, i) && forall j: nat :: j < i ==> !OccursAt(text, p, j)
    ensures First(text, p) == Some(i)
  {
    FirstLeast(text, p);
  }

  lemma FirstNone(text: string, p: string)
    requires p != []
    ensures First(text, p).None? <==> !Contains(text, p)
  {
    FirstLeast(text, p);
  }

  /** A pattern without newline lies on one side of a newline. */
  lemma OccursSide(x: string, y: string, p: string, i: nat)
    requires p != [] && '\n' !in p
    ensures OccursAt(x + "\n" + y, p, i) <==> OccursAt(x, p, i) || (i > |x| && OccursAt(y, p, i - |x| - 1))
  {
    var t := x + "\n" + y;
    if i + |p| <= |x| {
      assert t[i..i + |p|] == x[i..i + |p|];
    } else if i <= |x| {
      if i + |p| <= |t| {
        assert t[i..i + |p|][|x| - i] == '\n';
      }
    } else if i + |p| <= |t| {
      assert t[i..i + |p|] == y[i - |x| - 1..i - |x| - 1 + |p|];
    }
  }

  lemma ContainsSide(x: string, y: string, p: string)
    requires p != [] && '\n' !in p
    ensures Contains(x + "\n" + y, p) <==> Contains(x, p) || Contains(y, p)
  {
    var t := x + "\n" + y;
    if i: nat :| i <= |t| && OccursAt(t, p, i) {
      OccursSide(x, y, p, i);
    }
    if i: nat :| i <= |x| && OccursAt(x, p, i) {
      OccursSide(x, y, p, i);
    }
    if i: nat :| i <= |y| && OccursAt(y, p, i) {
      OccursSide(x, y, p, i + |x| + 1);
      assert OccursAt(t, p, i + |x| + 1);
    }
  }

  lemma OccursBehind(x: string, y: string, p: string, i: nat)
    requires p != [] && '\n' !in p && !Contains(x, p)
    ensures OccursAt(x + "\n" + y, p, i) <==> i > |x| && OccursAt(y, p, i - |x| - 1)
  {
    OccursSide(x, y, p, i);
    if i <= |x| { assert !OccursAt(x, p, i); }
  }

  /** Search skips a part that does not contain the pattern. */
  lemma FirstAfter(x: string, y: string, p: string)
    requires p != [] && '\n' !in p && !Contains(x, p)
    ensures First(x + "\n" + y, p) == match First(y, p) { case None => None case Some(i) => Some(|x| + 1 + i) }
  {
    var t, r := x + "\n" + y, First(y, p);
    FirstLeast(y, p);
    if r.Some? {
      OccursBehind(x, y, p, |x| + 1 + r.value);
      forall j: nat | j < |x| + 1 + r.value ensures !OccursAt(t, p, j) { OccursBehind(x, y, p, j); }
      FirstIs(t, p, |x| + 1 + r.value);
    } else {
      forall j: nat | j <= |t| ensures !OccursAt(t, p, j) { OccursBehind(x, y, p, j); }
      FirstNone(t, p);
    }
  }

  lemma FirstHere(p: string, rest: string)
    requires p != []
    ensures First(p + rest, p) == Some(0)
  {
    assert (p + rest)[..|p|] == p;
  }
}
