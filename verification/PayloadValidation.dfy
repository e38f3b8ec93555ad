/**
 The resumable payload validator: a durable cursor over the events table, advanced by bounded batches
 and lowered by the insert and update triggers of whoever writes.
*/
module PayloadValidation {
  import opened Prelude

  /** SQLite's json_valid on a payload. */
  type JsonCheck = string -> bool

  const MAX_SAFE_INTEGER := 0x1F_FFFF_FFFF_FFFF

  datatype Table = Table(events: map<int, string>, cursor: int)

  datatype Outcome =
    | Done(scannedThrough: int, rowsScanned: nat, complete: bool)
    | InvalidJson(sequence: int)
    | InvalidCursor
    | BadBatchSize

  // ---- writers and their triggers --------------------------------------------------------------------

  /** Both triggers: a write at or below the cursor moves the cursor in front of it. */
  function Lowered(cursor: int, written: int): int {
    if written <= cursor then (if written - 1 < 0 then 0 else written - 1) else cursor
  }

  /** INSERT; a duplicate sequence violates the primary key and changes nothing. */
  function Insert(t: Table, at: int, payload: string): Table {
    if at in t.events then t else Table(t.events[at := payload], Lowered(t.cursor, at))
  }

  /** UPDATE of payload and seq of one row; the trigger ignores an update that changes neither. */
  function Rewrite(t: Table, from: int, to: int, payload: string): Table {
    if from !in t.events || (to != from && to in t.events) then t
    else
      var changed := payload != t.events[from] || to != from;
      Table((t.events - {from})[to := payload], if changed then Lowered(t.cursor, to) else t.cursor)
  }

  function Delete(t: Table, at: int): Table {
    t.(events := t.events - {at})
  }

  // ---- one batch ---------------------------------------------------------------------------------------

  function Above(events: map<int, string>, cursor: int): set<int> {
    set s | s in events && s > cursor
  }

  lemma Member<T>(s: set<T>) returns (m: T)
    requires s != {}
    ensures m in s
  {
    m :| m in s;
  }

  predicate Least(m: int, s: set<int>) {
    m in s && forall x :: x in s ==> m <= x
  }

  lemma {:induction false} LeastExists(s: set<int>) returns (m: int)
    requires s != {}
    ensures Least(m, s)
    decreases |s|
  {
    m := Member(s);
    var rest := s - {m};
    if rest != {} {
      var l := LeastExists(rest);
      if l < m { m := l; }
    }
    assert s == rest + (s - rest);
  }

  lemma LeastIs(s: set<int>)
    requires s != {}
    ensures exists m :: Least(m, s)
  {
    var m := LeastExists(s);
  }

  predicate Increasing(r: seq<int>) {
    forall i, j :: 0 <= i < j < |r| ==> r[i] < r[j]
  }

  ghost predicate Lists(r: seq<int>, s: set<int>) {
    forall x :: x in r <==> x in s
  }

  /** ORDER BY seq */
  function Ordered(s: set<int>): (r: seq<int>)
    ensures Increasing(r) && Lists(r, s)
    decreases |s|
  {
    if s == {} then []
    else
      LeastIs(s);
      var m :| Least(m, s);
      ListsMore(m, Ordered(s - {m}), s);
      [m] + Ordered(s - {m})
  }

  lemma ListsMore(m: int, r: seq<int>, s: set<int>)
    requires Least(m, s) && Increasing(r) && Lists(r, s - {m})
    ensures Increasing([m] + r) && Lists([m] + r, s)
  {
    forall i | 0 <= i < |r| ensures m < r[i] { assert r[i] in r; }
  }

  /** The rows of one batch: the first maxRows sequences above the cursor. */
  function Selected(t: Table, maxRows: nat): (rows: seq<int>)
    ensures (forall i :: 0 <= i < |rows| ==> rows[i] in t.events && rows[i] > t.cursor) && Increasing(rows)
  {
    var all := Ordered(Above(t.events, t.cursor));
    assert forall i :: 0 <= i < |all| ==> all[i] in all && all[i] in Above(t.events, t.cursor);
    if |all| <= maxRows then all else all[..maxRows]
  }

  /** The first selected row that is not valid JSON, or the number of rows. */
  function FirstInvalid(t: Table, rows: seq<int>, ok: JsonCheck): (i: nat)
    requires forall k :: 0 <= k < |rows| ==> rows[k] in t.events
    ensures i <= |rows| && (forall k :: 0 <= k < i ==> ok(t.events[rows[k]]))
    ensures i < |rows| ==> !ok(t.events[rows[i]])
  {
    if rows == [] || !ok(t.events[rows[0]]) then 0 else 1 + FirstInvalid(t, rows[1..], ok)
  }

  function Batch(t: Table, maxRows: int, ok: JsonCheck): (Table, Outcome) {
    if maxRows < 1 || maxRows > 5000 then (t, BadBatchSize)
    else if t.cursor < 0 || t.cursor > MAX_SAFE_INTEGER then (t, InvalidCursor)
    else
      var rows := Selected(t, maxRows);
      var i := FirstInvalid(t, rows, ok);
      if i < |rows| then (t, InvalidJson(rows[i]))
      else
        var through := if rows == [] then t.cursor else rows[|rows| - 1];
        (t.(cursor := through), Done(through, |rows|, |rows| < maxRows))
  }

  class Journal {
    var events: map<int, string>
    var cursor: int
    const jsonValid: JsonCheck

    function Now(): Table
      reads this
    {
      Table(events, cursor)
    }

    constructor (events: map<int, string>, jsonValid: JsonCheck)
      ensures Now() == Table(events, 0) && this.jsonValid == jsonValid
    {
      this.events, cursor, this.jsonValid := events, 0, jsonValid;
    }

    method ValidateJournalPayloadBatch(maxRows: int) returns (outcome: Outcome)
      modifies this
      ensures (Now(), outcome) == Batch(old(Now()), maxRows, jsonValid)
      ensures events == old(events) && (!outcome.Done? ==> cursor == old(cursor))
      ensures outcome.BadBatchSize? <==> maxRows < 1 || maxRows > 5000
      ensures outcome.InvalidCursor? <==> 1 <= maxRows <= 5000 && (old(cursor) < 0 || old(cursor) > 9_007_199_254_740_991)
      ensures outcome.InvalidJson? ==>
                && outcome.sequence in events && outcome.sequence > old(cursor) && !jsonValid(events[outcome.sequence])
                && (forall s :: s in events && old(cursor) < s < outcome.sequence ==> jsonValid(events[s]))
                && |set s | s in events && old(cursor) < s <= outcome.sequence| <= maxRows
      ensures outcome.Done? ==>
                && cursor == outcome.scannedThrough >= old(cursor)
                && (forall s :: s in events && old(cursor) < s <= cursor ==> jsonValid(events[s]))
                && outcome.rowsScanned == |set s | s in events && old(cursor) < s <= cursor| <= maxRows
                && (outcome.complete <==> outcome.rowsScanned < maxRows)
                && (outcome.complete ==> forall s :: s in events ==> s <= cursor)
    {
      BatchSays(Now(), maxRows, jsonValid);
      outcome := RunBatch(maxRows);
    }

    /** The statements of one batch. */
    method RunBatch(maxRows: int) returns (outcome: Outcome)
      modifies this
      ensures (Now(), outcome) == Batch(old(Now()), maxRows, jsonValid)
    {
      if maxRows < 1 || maxRows > 5000 { return BadBatchSize; }
      var at := cursor;
      if at < 0 || at > MAX_SAFE_INTEGER { return InvalidCursor; }
      var rows := Selected(Now(), maxRows);
      var i := 0;
      while i < |rows|
        invariant 0 <= i <= |rows| && Now() == old(Now())
        invariant at == if i == 0 then cursor else rows[i - 1]
        invariant FirstInvalid(Now(), rows, jsonValid) == i + FirstInvalid(Now(), rows[i..], jsonValid)
      {
        if !jsonValid(events[rows[i]]) { return InvalidJson(rows[i]); }
        at := rows[i];
        assert rows[i..][1..] == rows[i + 1..];
        i := i + 1;
      }
      if |rows| > 0 { cursor := at; }
      outcome := Done(at, |rows|, |rows| < maxRows);
    }

    /** The maintenance loop: batches until one is complete or refuses, with no writer in between. */
    method ValidateAll(maxRows: int) returns (outcome: Outcome)
      requires 1 <= maxRows <= 5000 && 0 <= cursor && forall s :: s in events ==> s <= MAX_SAFE_INTEGER
      requires cursor <= MAX_SAFE_INTEGER
      modifies this
      ensures events == old(events)
      ensures outcome.Done? || outcome.InvalidJson?
      ensures outcome.Done? <==> forall s :: s in events && s > old(cursor) ==> jsonValid(events[s])
      ensures outcome.Done? ==> outcome.complete && forall s :: s in events ==> s <= cursor
      ensures outcome.InvalidJson? ==> outcome.sequence in events && !jsonValid(events[outcome.sequence])
    {
      while true
        invariant events == old(events) && old(cursor) <= cursor <= MAX_SAFE_INTEGER
        invariant forall s :: s in events && old(cursor) < s <= cursor ==> jsonValid(events[s])
        decreases |Above(events, cursor)|
      {
        ghost var before := Now();
        outcome := ValidateJournalPayloadBatch(maxRows);
        if outcome.InvalidJson? { BatchRefuses(before, maxRows, jsonValid); return; }
        BatchDone(before, maxRows, jsonValid);
        if outcome.complete { return; }
        BatchProgress(before, maxRows, jsonValid);
      }
    }
  }

  // ---- what one batch establishes ------------------------------------------------------------------------

  lemma IndexOrder(r: seq<int>, j: nat, k: nat)
    requires Increasing(r) && j < |r| && k < |r| && r[j] <= r[k]
    ensures j <= k
  {
  }

  /** No event is skipped below a selected row. */
  lemma SelectedInOrder(t: Table, maxRows: nat, k: nat, s: int) returns (j: nat)
    requires k < |Selected(t, maxRows)| && s in t.events && t.cursor < s <= Selected(t, maxRows)[k]
    ensures j <= k && Selected(t, maxRows)[j] == s
  {
    var all := Ordered(Above(t.events, t.cursor));
    assert s in all;
    j :| 0 <= j < |all| && all[j] == s;
    IndexOrder(all, j, k);
  }

  lemma SelectedComplete(t: Table, maxRows: nat, s: int)
    requires |Selected(t, maxRows)| < maxRows && s in t.events && s > t.cursor
    ensures s in Selected(t, maxRows)
  {
    assert s in Above(t.events, t.cursor);
  }

  /** A finished batch checked everything up to the new cursor, and above it nothing is left if complete. */
  lemma BatchDone(t: Table, maxRows: int, ok: JsonCheck)
    requires Batch(t, maxRows, ok).1.Done?
    ensures var (u, r) := Batch(t, maxRows, ok);
            && u.events == t.events && r.scannedThrough == u.cursor >= t.cursor
            && (u.cursor == t.cursor || u.cursor in t.events)
            && (forall s :: s in t.events && t.cursor < s <= u.cursor ==> ok(t.events[s]))
            && (r.complete ==> forall s :: s in t.events ==> s <= u.cursor)
  {
    var rows := Selected(t, maxRows);
    if rows != [] {
      var last := |rows| - 1;
      assert rows[last] in rows;
      forall s | s in t.events && t.cursor < s <= rows[last] ensures ok(t.events[s]) {
        var j := SelectedInOrder(t, maxRows, last, s);
      }
    }
    if |rows| < maxRows {
      forall s | s in t.events && s > t.cursor ensures rows != [] && s <= rows[|rows| - 1] {
        SelectedComplete(t, maxRows, s);
        var j :| 0 <= j < |rows| && rows[j] == s;
        assert j < |rows| - 1 ==> rows[j] < rows[|rows| - 1];
      }
    }
  }

  /** A refusal names the first invalid event above the cursor and changes nothing. */
  lemma BatchRefuses(t: Table, maxRows: int, ok: JsonCheck)
    requires Batch(t, maxRows, ok).1.InvalidJson?
    ensures var (u, r) := Batch(t, maxRows, ok);
            && u == t && r.sequence in t.events && r.sequence > t.cursor && !ok(t.events[r.sequence])
            && forall s :: s in t.events && t.cursor < s < r.sequence ==> ok(t.events[s])
  {
    var rows := Selected(t, maxRows);
    var i := FirstInvalid(t, rows, ok);
    assert rows[i] in rows;
    forall s | s in t.events && t.cursor < s < rows[i] ensures ok(t.events[s]) {
      var j := SelectedInOrder(t, maxRows, i, s);
    }
  }

  lemma {:induction false} ListedOnce(r: seq<int>, s: set<int>)
    requires Increasing(r) && Lists(r, s)
    ensures |r| == |s|
    decreases |r|
  {
    if r == [] {
      if s != {} {
        var m := Member(s);
        assert false;
      }
    } else {
      var rest := s - {r[0]};
      assert r[0] in r && r == [r[0]] + r[1..];
      assert Lists(r[1..], rest);
      ListedOnce(r[1..], rest);
    }
  }

  /** The rows up to a selected one are all there are above the cursor up to it. */
  lemma SelectedCount(t: Table, maxRows: nat, k: nat)
    requires k < |Selected(t, maxRows)|
    ensures |set s | s in t.events && t.cursor < s <= Selected(t, maxRows)[k]| == k + 1
  {
    var rows := Selected(t, maxRows);
    var upTo := set s | s in t.events && t.cursor < s <= rows[k];
    forall s | s in upTo ensures s in rows[..k + 1] {
      var j := SelectedInOrder(t, maxRows, k, s);
      assert rows[..k + 1][j] == s;
    }
    ListedOnce(rows[..k + 1], upTo);
  }

  /** What a batch answers, in terms of the events and the cursor alone. */
  lemma BatchSays(t: Table, maxRows: int, ok: JsonCheck)
    ensures var (u, r) := Batch(t, maxRows, ok);
            && u.events == t.events && (!r.Done? ==> u.cursor == t.cursor)
            && (r.BadBatchSize? <==> maxRows < 1 || maxRows > 5000)
            && (r.InvalidCursor? <==> 1 <= maxRows <= 5000 && (t.cursor < 0 || t.cursor > 9_007_199_254_740_991))
            && (r.InvalidJson? ==>
                  && r.sequence in t.events && r.sequence > t.cursor && !ok(t.events[r.sequence])
                  && (forall s :: s in t.events && t.cursor < s < r.sequence ==> ok(t.events[s]))
                  && |set s | s in t.events && t.cursor < s <= r.sequence| <= maxRows)
            && (r.Done? ==>
                  && u.cursor == r.scannedThrough >= t.cursor
                  && (forall s :: s in t.events && t.cursor < s <= u.cursor ==> ok(t.events[s]))
                  && r.rowsScanned == |set s | s in t.events && t.cursor < s <= u.cursor| <= maxRows
                  && (r.complete <==> r.rowsScanned < maxRows)
                  && (r.complete ==> forall s :: s in t.events ==> s <= u.cursor))
  {
    var (u, r) := Batch(t, maxRows, ok);
    if r.InvalidJson? {
      BatchRefuses(t, maxRows, ok);
      SelectedCount(t, maxRows, FirstInvalid(t, Selected(t, maxRows), ok));
    } else if r.Done? {
      BatchDone(t, maxRows, ok);
      var rows := Selected(t, maxRows);
      if rows == [] {
        assert (set s | s in t.events && t.cursor < s <= u.cursor) == {};
      } else {
        SelectedCount(t, maxRows, |rows| - 1);
      }
    }
  }

  /**
   What a write does to the cursor: one at or below it puts the cursor just in front, at 0 at the
   lowest; a higher one, a refused one, a rewrite of the same row with the same payload and a delete
   leave it where it is.
  */
  lemma TriggersDecide(t: Table, at: int, to: int, payload: string)
    ensures var u := Insert(t, at, payload);
            if at in t.events then u == t
            else u.events == t.events[at := payload]
                 && u.cursor == if at > t.cursor then t.cursor else if at >= 1 then at - 1 else 0
    ensures var u := Rewrite(t, at, to, payload);
            if at !in t.events || (to != at && to in t.events) then u == t
            else
              && u.events == (map s | s in t.events && s != at :: t.events[s])[to := payload]
              && u.cursor == if to > t.cursor || (to == at && payload == t.events[at]) then t.cursor
                             else if to >= 1 then to - 1 else 0
    ensures Delete(t, at) == Table(map s | s in t.events && s != at :: t.events[s], t.cursor)
  {
    assert t.events - {at} == map s | s in t.events && s != at :: t.events[s];
  }

  /** An incomplete batch leaves fewer rows to check. */
  lemma BatchProgress(t: Table, maxRows: int, ok: JsonCheck)
    requires var r := Batch(t, maxRows, ok).1; r.Done? && !r.complete
    ensures Above(t.events, Batch(t, maxRows, ok).0.cursor) < Above(t.events, t.cursor)
    ensures |Above(t.events, Batch(t, maxRows, ok).0.cursor)| < |Above(t.events, t.cursor)|
  {
    var rows := Selected(t, maxRows);
    var u := Batch(t, maxRows, ok).0;
    var last := rows[|rows| - 1];
    assert last in rows;
    assert last in Above(t.events, t.cursor) && last !in Above(t.events, u.cursor);
    assert Above(t.events, u.cursor) <= Above(t.events, t.cursor) - {last};
    SubsetCard(Above(t.events, u.cursor), Above(t.events, t.cursor) - {last});
  }

  // ---- any interleaving of writers and batches --------------------------------------------------------------

  datatype Op =
    | InsertOp(at: int, payload: string)
    | RewriteOp(from: int, to: int, payload: string)
    | DeleteOp(at: int)
    | BatchOp(maxRows: int)

  function Apply(t: Table, op: Op, ok: JsonCheck): Table {
    match op
    case InsertOp(at, payload) => Insert(t, at, payload)
    case RewriteOp(from, to, payload) => Rewrite(t, from, to, payload)
    case DeleteOp(at) => Delete(t, at)
    case BatchOp(maxRows) => Batch(t, maxRows, ok).0
  }

  function Run(t: Table, ops: seq<Op>, ok: JsonCheck): Table
    decreases |ops|
  {
    if ops == [] then t else Run(Apply(t, ops[0], ok), ops[1..], ok)
  }

  /** What the cursor stands for: every event from 1 up to it has valid JSON. */
  ghost predicate Checked(t: Table, ok: JsonCheck) {
    t.cursor >= 0 && forall s :: s in t.events && 1 <= s <= t.cursor ==> ok(t.events[s])
  }

  lemma ApplyKeepsChecked(t: Table, op: Op, ok: JsonCheck)
    requires Checked(t, ok)
    ensures Checked(Apply(t, op, ok), ok)
  {
    match op
    case InsertOp(at, payload) =>
    case RewriteOp(from, to, payload) =>
    case DeleteOp(at) =>
    case BatchOp(maxRows) => if Batch(t, maxRows, ok).1.Done? { BatchDone(t, maxRows, ok); }
  }

  lemma {:induction false} RunKeepsChecked(t: Table, ops: seq<Op>, ok: JsonCheck)
    requires Checked(t, ok)
    ensures Checked(Run(t, ops, ok), ok)
    decreases |ops|
  {
    if ops != [] {
      ApplyKeepsChecked(t, ops[0], ok);
      RunKeepsChecked(Apply(t, ops[0], ok), ops[1..], ok);
    }
  }

  /** Whatever was written, moved, deleted and validated, every event from 1 to the cursor is valid. */
  lemma CursorIsHonest(events: map<int, string>, ops: seq<Op>, ok: JsonCheck, s: int)
    requires var t := Run(Table(events, 0), ops, ok); s in t.events && 1 <= s <= t.cursor
    ensures ok(Run(Table(events, 0), ops, ok).events[s])
  {
    RunKeepsChecked(Table(events, 0), ops, ok);
  }

  predicate AllValid(events: map<int, string>, ok: JsonCheck) {
    forall s :: s in events ==> ok(events[s])
  }

  predicate NonPositiveValid(events: map<int, string>, ok: JsonCheck) {
    forall s :: s in events && s <= 0 ==> ok(events[s])
  }

  /**
  A complete batch proves the whole table valid exactly when the events at or below sequence zero are:
  those the cursor never visits. Sequences the table assigns itself start at 1.
  */
  lemma CompleteMeansValidExactly(events: map<int, string>, ops: seq<Op>, maxRows: int, ok: JsonCheck)
    requires var r := Batch(Run(Table(events, 0), ops, ok), maxRows, ok).1; r.Done? && r.complete
    ensures var t := Run(Table(events, 0), ops, ok); AllValid(t.events, ok) <==> NonPositiveValid(t.events, ok)
  {
    var t := Run(Table(events, 0), ops, ok);
    RunKeepsChecked(Table(events, 0), ops, ok);
    BatchDone(t, maxRows, ok);
  }

  /** An invalid event written at sequence zero is never found: validation completes over it. */
  lemma SequenceZeroIsNeverChecked(payload: string, ok: JsonCheck)
    requires !ok(payload)
    ensures var t := Run(Table(map[], 0), [InsertOp(0, payload)], ok);
            Batch(t, 500, ok) == (t, Done(0, 0, true)) && !AllValid(t.events, ok)
  {
    var ops := [InsertOp(0, payload)];
    assert ops[1..] == [];
    var t := Table(map[0 := payload], 0);
    assert Run(Table(map[], 0), ops, ok) == t;
    assert Above(t.events, 0) == {};
    assert 0 in t.events;
  }
}
