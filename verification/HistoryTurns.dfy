/** Dropping whole old turns from a managed history (core/session_history.py 79-198). */
module HistoryTurns {
  import opened Common
  import opened Transcript

  // ---- grouping rows into turns --------------------------------------------

  type Identity = (Option<string>, Option<string>)

  predicate HasTurn(row: Row)
  {
    row.Row? && row.turn.Some? && row.turn.value != ""
  }

  function IdentityOf(row: Row): Identity
  {
    if row.Row? then (row.task, row.turn) else (None, None)
  }

  /** Whether `row` opens a new turn when it follows `before`. */
  predicate StartsTurn(before: Row, row: Row)
  {
    if HasTurn(row) then !HasTurn(before) || IdentityOf(before) != IdentityOf(row)
    else HasTurn(before) || (row.Row? && row.fromUser)
  }

  function TurnGroups(rows: seq<Row>): (groups: seq<seq<Row>>)
    ensures rows != [] <==> groups != []
  {
    if rows == [] then []
    else if |rows| == 1 then [rows]
    else
      var rest := TurnGroups(rows[1..]);
      if StartsTurn(rows[0], rows[1]) then [[rows[0]]] + rest else Join(rows[0], rest)
  }

  /** A row in front of the first turn. */
  function Join(first: Row, groups: seq<seq<Row>>): (r: seq<seq<Row>>)
    requires groups != []
  {
    [[first] + groups[0]] + groups[1..]
  }

  lemma TurnGroupsCons(first: Row, tail: seq<Row>)
    requires tail != []
    ensures TurnGroups([first] + tail)
         == if StartsTurn(first, tail[0]) then [[first]] + TurnGroups(tail) else Join(first, TurnGroups(tail))
  {
    assert ([first] + tail)[1..] == tail;
  }

  /** The turns are the rows in order, and none is empty. */
  lemma {:induction false} TurnsAreRows(rows: seq<Row>)
    ensures Flatten(TurnGroups(rows)) == rows && [] !in TurnGroups(rows)
  {
    if |rows| == 1 {
      FlattenSingle(rows);
    } else if |rows| > 1 {
      var first, tail := rows[0], rows[1..];
      var rest := TurnGroups(tail);
      TurnsAreRows(tail);
      assert rows == [first] + tail;
      if StartsTurn(first, rows[1]) {
        FlattenCons([first], rest);
      } else {
        assert rest == [rest[0]] + rest[1..];
        FlattenCons(rest[0], rest[1..]);
        FlattenCons([first] + rest[0], rest[1..]);
        Joined([first], rest[0], Flatten(rest[1..]));
      }
    }
  }

  /** A row begins a turn when its task or turn differs from that of the row before; among rows
      without a turn, when a user speaks. */
  predicate Opens(before: Row, row: Row)
  {
    var turned := row.Row? && row.turn.Some? && row.turn.value != "";
    var turnedBefore := before.Row? && before.turn.Some? && before.turn.value != "";
    if turned then !turnedBefore || before.task != row.task || before.turn != row.turn
    else turnedBefore || (row.Row? && row.fromUser)
  }

  ghost predicate IsOneTurn(turn: seq<Row>)
  {
    turn != [] && forall i :: 0 < i < |turn| ==> !Opens(turn[i - 1], turn[i])
  }

  /** The rows cut into turns: no row inside a turn begins one, the first row of each does. */
  ghost predicate AreTurns(rows: seq<Row>, groups: seq<seq<Row>>)
  {
    && Flatten(groups) == rows && (forall k :: 0 <= k < |groups| ==> IsOneTurn(groups[k]))
    && forall k :: 0 < k < |groups| ==> Opens(groups[k - 1][|groups[k - 1]| - 1], groups[k][0])
  }

  ghost predicate OpenInTurn(groups: seq<seq<Row>>)
  {
    && (forall k :: 0 <= k < |groups| ==> IsOneTurn(groups[k]))
    && forall k :: 0 < k < |groups| ==> Opens(groups[k - 1][|groups[k - 1]| - 1], groups[k][0])
  }

  lemma NewTurn(first: Row, groups: seq<seq<Row>>)
    requires groups != [] && OpenInTurn(groups) && Opens(first, groups[0][0])
    ensures OpenInTurn([[first]] + groups)
  {
    var all := [[first]] + groups;
    assert all[0] == [first] && forall k :: 0 < k < |all| ==> all[k] == groups[k - 1];
    forall k | 0 <= k < |all|
      ensures IsOneTurn(all[k]) && (k > 0 ==> Opens(all[k - 1][|all[k - 1]| - 1], all[k][0]))
    {
      assert k > 0 ==> IsOneTurn(groups[k - 1]);
      assert k > 1 ==> Opens(groups[k - 2][|groups[k - 2]| - 1], groups[k - 1][0]);
    }
  }

  lemma SameTurn(first: Row, groups: seq<seq<Row>>)
    requires groups != [] && OpenInTurn(groups) && !Opens(first, groups[0][0])
    ensures OpenInTurn(Join(first, groups))
  {
    var all := Join(first, groups);
    var longer := [first] + groups[0];
    forall i | 0 < i < |longer|
      ensures !Opens(longer[i - 1], longer[i])
    {
      if i > 1 {
        assert longer[i] == groups[0][i - 1] && longer[i - 1] == groups[0][i - 2];
      }
    }
    assert all[0] == longer && longer[|longer| - 1] == groups[0][|groups[0]| - 1];
    forall k | 0 < k < |all|
      ensures all[k] == groups[k] && Opens(all[k - 1][|all[k - 1]| - 1], all[k][0])
    {
      assert Opens(groups[k - 1][|groups[k - 1]| - 1], groups[k][0]);
    }
  }

  lemma {:induction false} TurnsOpenInTurn(rows: seq<Row>)
    ensures OpenInTurn(TurnGroups(rows))
    ensures rows != [] ==> TurnGroups(rows)[0] != [] && TurnGroups(rows)[0][0] == rows[0]
  {
    if |rows| > 1 {
      var rest := TurnGroups(rows[1..]);
      TurnsOpenInTurn(rows[1..]);
      if StartsTurn(rows[0], rows[1]) {
        NewTurn(rows[0], rest);
      } else {
        SameTurn(rows[0], rest);
      }
    }
  }

  lemma GroupsAreTurns(rows: seq<Row>)
    ensures AreTurns(rows, TurnGroups(rows))
  {
    TurnsAreRows(rows);
    TurnsOpenInTurn(rows);
  }

  /** One iteration of the grouping loop. */
  function AddRow(groups: seq<seq<Row>>, opens: bool, row: Row): (r: seq<seq<Row>>)
  {
    if opens || groups == [] then groups + [[row]]
    else groups[..|groups| - 1] + [groups[|groups| - 1] + [row]]
  }

  method HistoryTurnGroups(rows: seq<Row>) returns (groups: seq<seq<Row>>)
    ensures groups == TurnGroups(rows)
    // in terms of the rows alone
    ensures AreTurns(rows, groups)
  {
    GroupsAreTurns(rows);
    groups := [];
    var lastIdentity: Option<Identity> := None;
    for i := 0 to |rows|
      invariant groups == TurnGroups(rows[..i])
      invariant i > 0 ==> lastIdentity == if HasTurn(rows[i - 1]) then Some(IdentityOf(rows[i - 1])) else None
    {
      var row := rows[i];
      var identity := IdentityOf(row);
      var hasTurn := HasTurn(row);
      var newGroup := groups == []
        || (hasTurn && Some(identity) != lastIdentity)
        || (!hasTurn && (lastIdentity != None || (row.Row? && row.fromUser)));
      SnocAt(rows, i);
      groups := AddRow(groups, newGroup, row);
      lastIdentity := if hasTurn then Some(identity) else None;
    }
    assert rows[..|rows|] == rows;
  }

  lemma SnocAt(rows: seq<Row>, i: nat)
    requires i < |rows|
    ensures TurnGroups(rows[..i + 1]) == AddRow(TurnGroups(rows[..i]), i == 0 || StartsTurn(rows[i - 1], rows[i]), rows[i])
  {
    TurnGroupsSnoc(rows[..i], rows[i]);
    assert rows[..i + 1] == rows[..i] + [rows[i]];
  }

  lemma AddRowCons(g: seq<Row>, groups: seq<seq<Row>>, opens: bool, row: Row)
    requires groups != []
    ensures AddRow([g] + groups, opens, row) == [g] + AddRow(groups, opens, row)
  {
    var n := |groups| - 1;
    assert ([g] + groups)[..n + 1] == [g] + groups[..n];
  }

  lemma AddRowJoin(first: Row, groups: seq<seq<Row>>, opens: bool, row: Row)
    requires groups != []
    ensures var added := AddRow(groups, opens, row);
            added != [] && AddRow(Join(first, groups), opens, row) == Join(first, added)
  {
    var added, joined := AddRow(groups, opens, row), Join(first, groups);
    if opens {
      assert added[1..] == groups[1..] + [[row]];
    } else if |groups| == 1 {
      assert [first] + (groups[0] + [row]) == [first] + groups[0] + [row];
    } else {
      var n := |groups| - 1;
      assert joined[..n] == [[first] + groups[0]] + groups[1..n];
      assert added[1..] == groups[1..n] + [groups[n] + [row]];
    }
  }

  lemma AddRowBehind(first: Row, starts: bool, groups: seq<seq<Row>>, opens: bool, row: Row)
    requires groups != []
    ensures AddRow(groups, opens, row) != []
    ensures AddRow(if starts then [[first]] + groups else Join(first, groups), opens, row)
         == if starts then [[first]] + AddRow(groups, opens, row) else Join(first, AddRow(groups, opens, row))
  {
    if starts {
      AddRowCons([first], groups, opens, row);
    } else {
      AddRowJoin(first, groups, opens, row);
    }
  }

  lemma SnocBehind(first: Row, tail: seq<Row>, row: Row)
    requires tail != []
    requires TurnGroups(tail + [row]) == AddRow(TurnGroups(tail), StartsTurn(tail[|tail| - 1], row), row)
    ensures TurnGroups([first] + (tail + [row]))
         == AddRow(TurnGroups([first] + tail), StartsTurn(tail[|tail| - 1], row), row)
  {
    TurnGroupsCons(first, tail);
    TurnGroupsCons(first, tail + [row]);
    AddRowBehind(first, StartsTurn(first, tail[0]), TurnGroups(tail), StartsTurn(tail[|tail| - 1], row), row);
  }

  lemma {:induction false} TurnGroupsSnoc(rows: seq<Row>, row: Row)
    ensures TurnGroups(rows + [row])
         == AddRow(TurnGroups(rows), rows == [] || StartsTurn(rows[|rows| - 1], row), row)
  {
    if |rows| > 1 {
      var first, tail := rows[0], rows[1..];
      TurnGroupsSnoc(tail, row);
      SnocBehind(first, tail, row);
      assert tail[|tail| - 1] == rows[|rows| - 1];
      assert rows == [first] + tail && rows + [row] == [first] + (tail + [row]);
    } else if rows != [] {
      SecondRow(rows[0], row);
      assert rows == [rows[0]];
    } else {
      assert rows + [row] == [row];
    }
  }

  lemma SecondRow(first: Row, row: Row)
    ensures TurnGroups([first] + [row]) == AddRow(TurnGroups([first]), StartsTurn(first, row), row)
  {
    TurnGroupsCons(first, [row]);
  }

  /** Cutting at a turn boundary does not change how the rest is grouped. */
  lemma {:induction false} SuffixKeepsTurns(rows: seq<Row>, k: nat)
    requires k <= |TurnGroups(rows)|
    ensures TurnGroups(Flatten(TurnGroups(rows)[k..])) == TurnGroups(rows)[k..]
    decreases k
  {
    var g := TurnGroups(rows);
    if k > 0 {
      TailKeepsTurns(rows);
      SuffixKeepsTurns(Flatten(g[1..]), k - 1);
      assert g[1..][k - 1..] == g[k..];
    } else {
      TurnsAreRows(rows);
      assert g[0..] == g;
    }
  }

  lemma {:induction false} TailKeepsTurns(rows: seq<Row>)
    requires rows != []
    ensures TurnGroups(Flatten(TurnGroups(rows)[1..])) == TurnGroups(rows)[1..]
  {
    var g := TurnGroups(rows);
    if |rows| > 1 {
      TailKeepsTurns(rows[1..]);
      TurnsAreRows(rows[1..]);
      assert !StartsTurn(rows[0], rows[1]) ==> g[1..] == TurnGroups(rows[1..])[1..];
    }
  }

  // ---- ranges of event sequences -------------------------------------------

  function Max(a: int, b: int): int
  {
    if a >= b then a else b
  }

  ghost predicate Covers(ranges: seq<Interval>, x: int)
  {
    exists i :: 0 <= i < |ranges| && ranges[i].low <= x <= ranges[i].high
  }

  ghost predicate Proper(ranges: seq<Interval>)
  {
    forall i :: 0 <= i < |ranges| ==> ranges[i].low <= ranges[i].high
  }

  ghost predicate SortedByLow(ranges: seq<Interval>)
  {
    forall i :: 0 <= i < |ranges| - 1 ==> ranges[i].low <= ranges[i + 1].low
  }

  /** Normal form: in order, with a gap between neighbours. */
  ghost predicate Separated(ranges: seq<Interval>)
  {
    forall i :: 0 <= i < |ranges| - 1 ==> ranges[i].high + 1 < ranges[i + 1].low
  }

  predicate Before(a: Interval, b: Interval)
  {
    a.low < b.low || (a.low == b.low && a.high <= b.high)
  }

  function Insert(r: Interval, sorted: seq<Interval>): (s: seq<Interval>)
    ensures multiset(s) == multiset(sorted) + multiset{r}
  {
    if sorted == [] then [r]
    else
      assert sorted == [sorted[0]] + sorted[1..];
      if Before(r, sorted[0]) then [r] + sorted
      else [sorted[0]] + Insert(r, sorted[1..])
  }

  function SortRanges(ranges: seq<Interval>): (s: seq<Interval>)
    ensures multiset(s) == multiset(ranges)
    ensures SortedByLow(s)
  {
    if ranges == [] then []
    else
      assert ranges == [ranges[0]] + ranges[1..];
      InsertSorts(ranges[0], SortRanges(ranges[1..]));
      Insert(ranges[0], SortRanges(ranges[1..]))
  }

  lemma {:induction false} InsertSorts(r: Interval, sorted: seq<Interval>)
    requires SortedByLow(sorted)
    ensures SortedByLow(Insert(r, sorted))
  {
    if sorted == [] || Before(r, sorted[0]) {
      SortedCons(r, sorted);
    } else {
      var first, tail := sorted[0], sorted[1..];
      SortedTail(sorted);
      InsertSorts(r, tail);
      InsertHead(r, tail);
      SortedCons(first, Insert(r, tail));
    }
  }

  lemma InsertHead(r: Interval, sorted: seq<Interval>)
    ensures Insert(r, sorted) != []
    ensures Insert(r, sorted)[0] == r || (sorted != [] && Insert(r, sorted)[0] == sorted[0])
  {
  }

  lemma SortedTail(sorted: seq<Interval>)
    requires SortedByLow(sorted) && sorted != []
    ensures SortedByLow(sorted[1..]) && (|sorted| > 1 ==> sorted[0].low <= sorted[1..][0].low)
  {
  }

  lemma SortedCons(first: Interval, rest: seq<Interval>)
    requires SortedByLow(rest) && (rest != [] ==> first.low <= rest[0].low)
    ensures SortedByLow([first] + rest)
  {
  }

  /** One iteration of the merge loop: extend the last range when the next touches it. */
  function MergeStep(done: seq<Interval>, r: Interval): (merged: seq<Interval>)
    ensures merged != []
  {
    var m := |done| - 1;
    if done != [] && r.low <= done[m].high + 1
    then done[m := Interval(done[m].low, Max(done[m].high, r.high))]
    else done + [r]
  }

  function MergeSorted(ranges: seq<Interval>): (merged: seq<Interval>)
  {
    if ranges == [] then [] else MergeStep(MergeSorted(ranges[..|ranges| - 1]), ranges[|ranges| - 1])
  }

  method MergeRanges(ranges: seq<Interval>) returns (merged: seq<Interval>)
    ensures merged == MergeSorted(SortRanges(ranges))
  {
    var intervals := SortRanges(ranges);
    merged := [];
    for i := 0 to |intervals|
      invariant merged == MergeSorted(intervals[..i])
    {
      MergeNext(intervals, i);
      merged := MergeStep(merged, intervals[i]);
    }
    assert intervals[..|intervals|] == intervals;
  }

  lemma MergeNext(intervals: seq<Interval>, i: nat)
    requires i < |intervals|
    ensures MergeSorted(intervals[..i + 1]) == MergeStep(MergeSorted(intervals[..i]), intervals[i])
  {
    assert intervals[..i + 1][..i] == intervals[..i];
  }

  lemma CoversLast(ranges: seq<Interval>, r: Interval, x: int)
    ensures Covers(ranges + [r], x) <==> Covers(ranges, x) || r.low <= x <= r.high
  {
    var all := ranges + [r];
    if Covers(ranges, x) {
      var i :| 0 <= i < |ranges| && ranges[i].low <= x <= ranges[i].high;
      assert all[i] == ranges[i];
    }
    if r.low <= x <= r.high {
      assert all[|ranges|] == r;
    }
  }

  lemma {:induction false} MergeSeparates(ranges: seq<Interval>)
    requires SortedByLow(ranges) && Proper(ranges)
    ensures var merged := MergeSorted(ranges);
            && Proper(merged) && Separated(merged)
            && (merged == [] <==> ranges == [])
            && (ranges != [] ==> merged[|merged| - 1].low <= ranges[|ranges| - 1].low)
  {
    if ranges != [] {
      var init, r := ranges[..|ranges| - 1], ranges[|ranges| - 1];
      assert SortedByLow(init) && Proper(init);
      MergeSeparates(init);
      StepSeparates(MergeSorted(init), r);
    }
  }

  lemma StepSeparates(done: seq<Interval>, r: Interval)
    requires Proper(done) && Separated(done) && r.low <= r.high
    requires done != [] ==> done[|done| - 1].low <= r.low
    ensures var merged := MergeStep(done, r);
            Proper(merged) && Separated(merged) && merged[|merged| - 1].low <= r.low
  {
  }

  lemma StepCovers(done: seq<Interval>, r: Interval, x: int)
    requires Proper(done) && r.low <= r.high
    requires done != [] ==> done[|done| - 1].low <= r.low
    ensures Covers(MergeStep(done, r), x) <==> Covers(done, x) || r.low <= x <= r.high
  {
    var merged := MergeStep(done, r);
    if done != [] && r.low <= done[|done| - 1].high + 1 {
      var m := |done| - 1;
      var last, wider := done[m], merged[m];
      assert done == done[..m] + [last] && merged == done[..m] + [wider];
      CoversLast(done[..m], last, x);
      CoversLast(done[..m], wider, x);
    } else {
      CoversLast(done, r, x);
    }
  }

  /** Merging neither loses nor invents an event sequence. */
  lemma {:induction false} MergeCoversExactly(ranges: seq<Interval>, x: int)
    requires SortedByLow(ranges) && Proper(ranges)
    ensures Covers(MergeSorted(ranges), x) <==> Covers(ranges, x)
  {
    if ranges != [] {
      var n := |ranges| - 1;
      var init, r := ranges[..n], ranges[n];
      assert SortedByLow(init) && Proper(init);
      MergeCoversExactly(init, x);
      MergeSeparates(init);
      var done := MergeSorted(init);
      if done != [] {
        assert done[|done| - 1].low <= init[n - 1].low <= r.low;
      }
      StepCovers(done, r, x);
      assert ranges == init + [r];
      CoversLast(init, r, x);
    }
  }

  function Singletons(sequences: seq<int>): (ranges: seq<Interval>)
    ensures |ranges| == |sequences|
    ensures forall i :: 0 <= i < |ranges| ==> ranges[i] == Interval(sequences[i], sequences[i])
  {
    seq(|sequences|, i requires 0 <= i < |sequences| => Interval(sequences[i], sequences[i]))
  }

  /** Ranges of the dropped events, merged into those recorded earlier. */
  function RangesAfter(existing: seq<Interval>, dropped: seq<int>): (ranges: seq<Interval>)
  {
    MergeSorted(SortRanges(existing + MergeSorted(SortRanges(Singletons(dropped)))))
  }

  lemma SortCoversExactly(ranges: seq<Interval>, x: int)
    ensures Covers(SortRanges(ranges), x) <==> Covers(ranges, x)
    ensures Proper(ranges) ==> Proper(SortRanges(ranges))
  {
    var sorted := SortRanges(ranges);
    if Covers(sorted, x) {
      CoversPermuted(sorted, ranges, x);
    }
    if Covers(ranges, x) {
      CoversPermuted(ranges, sorted, x);
    }
    if Proper(ranges) {
      ProperPermuted(ranges, sorted);
    }
  }

  lemma CoversPermuted(a: seq<Interval>, b: seq<Interval>, x: int)
    requires multiset(a) == multiset(b) && Covers(a, x)
    ensures Covers(b, x)
  {
    var i :| 0 <= i < |a| && a[i].low <= x <= a[i].high;
    assert a[i] in multiset(b);
    var j :| 0 <= j < |b| && b[j] == a[i];
  }

  lemma ProperPermuted(a: seq<Interval>, b: seq<Interval>)
    requires multiset(a) == multiset(b) && Proper(a)
    ensures Proper(b)
  {
    forall j | 0 <= j < |b|
      ensures b[j].low <= b[j].high
    {
      assert b[j] in multiset(a);
      var i :| 0 <= i < |a| && a[i] == b[j];
    }
  }

  lemma CoversAppend(a: seq<Interval>, b: seq<Interval>, x: int)
    ensures Covers(a + b, x) <==> Covers(a, x) || Covers(b, x)
  {
    if Covers(a, x) {
      var i :| 0 <= i < |a| && a[i].low <= x <= a[i].high;
      assert (a + b)[i] == a[i];
    }
    if Covers(b, x) {
      var i :| 0 <= i < |b| && b[i].low <= x <= b[i].high;
      assert (a + b)[|a| + i] == b[i];
    }
  }

  lemma SingletonsCover(dropped: seq<int>, x: int)
    ensures Proper(Singletons(dropped))
    ensures Covers(Singletons(dropped), x) <==> x in dropped
  {
    if x in dropped {
      var i :| 0 <= i < |dropped| && dropped[i] == x;
      assert Singletons(dropped)[i].low <= x <= Singletons(dropped)[i].high;
    }
  }

  lemma MergedCoverExactly(ranges: seq<Interval>, x: int)
    requires Proper(ranges)
    ensures var merged := MergeSorted(SortRanges(ranges));
            Proper(merged) && Separated(merged) && (Covers(merged, x) <==> Covers(ranges, x))
  {
    SortCoversExactly(ranges, x);
    MergeSeparates(SortRanges(ranges));
    MergeCoversExactly(SortRanges(ranges), x);
  }

  lemma RangesCoverExactly(existing: seq<Interval>, dropped: seq<int>, x: int)
    requires Proper(existing)
    ensures Proper(RangesAfter(existing, dropped)) && Separated(RangesAfter(existing, dropped))
    ensures Covers(RangesAfter(existing, dropped), x) <==> Covers(existing, x) || x in dropped
  {
    SingletonsCover(dropped, x);
    MergedCoverExactly(Singletons(dropped), x);
    var added := MergeSorted(SortRanges(Singletons(dropped)));
    CoversAppend(existing, added, x);
    MergedCoverExactly(existing + added, x);
  }

  // ---- compacting a body ---------------------------------------------------

  function SequencesOf(rows: seq<Row>): (sequences: seq<int>)
    ensures forall x :: x in sequences <==> exists r :: r in rows && r.Row? && r.sequence == Some(x)
  {
    if rows == [] then []
    else
      assert rows == [rows[0]] + rows[1..];
      (if rows[0].Row? && rows[0].sequence.Some? then [rows[0].sequence.value] else []) + SequencesOf(rows[1..])
  }

  function KeepRecords(records: seq<TaskRecord>, identities: set<Identity>): (kept: seq<TaskRecord>)
  {
    if records == [] then []
    else
      (if records[0].TaskRecord? && (records[0].task, records[0].turn) in identities then [records[0]] else [])
      + KeepRecords(records[1..], identities)
  }

  function TaskIds(rows: seq<Row>): (tasks: set<string>)
  {
    set row | row in rows && row.Row? && row.task.Some? && row.task.value != "" :: row.task.value
  }

  function KeepOfTasks(records: seq<TaskRecord>, tasks: set<string>): (kept: seq<TaskRecord>)
  {
    if records == [] then []
    else
      var r := records[0];
      (if r.TaskRecord? && r.task.Some? && r.task.value in tasks then [r] else []) + KeepOfTasks(records[1..], tasks)
  }

  function KeepPart(part: RecordList, tasks: set<string>): (kept: RecordList)
  {
    Records(KeepOfTasks(RecordsOf(part), tasks))
  }

  function KeepInvestigation(i: Option<Investigation>, tasks: set<string>): (r: Option<Investigation>)
  {
    if i.Some? then Some(Investigation(KeepPart(i.value.resources, tasks), KeepPart(i.value.questions, tasks))) else None
  }

  const NOTHING_EARLIER := EarlierSummary(0, 0, [], {})

  function EarlierOf(body: SessionBody): EarlierSummary
  {
    if body.earlier.Some? then body.earlier.value else NOTHING_EARLIER
  }

  function TurnsOf(body: SessionBody): (groups: seq<seq<Row>>)
  {
    TurnGroups(RowsOf(body.recent))
  }

  /** How many turns are dropped. */
  function CutOf(body: SessionBody, keep: nat): (cut: nat)
    ensures cut <= |TurnsOf(body)|
  {
    if keep <= |TurnsOf(body)| then |TurnsOf(body)| - keep else 0
  }

  function KeptOf(body: SessionBody, keep: nat): (rows: seq<Row>)
  {
    Flatten(TurnsOf(body)[CutOf(body, keep)..])
  }

  function DroppedOf(body: SessionBody, keep: nat): (rows: seq<Row>)
  {
    Flatten(TurnsOf(body)[..CutOf(body, keep)])
  }

  /** Keep the newest `keep` turns; account for the others in `earlier_summary`. */
  function CompactBody(body: SessionBody, keep: nat, previews: bool, omitReads: bool): (r: SessionBody)
  {
    var rows, dropped, earlier := KeptOf(body, keep), DroppedOf(body, keep), EarlierOf(body);
    var identities := set row | row in rows :: IdentityOf(row);
    body.(
      recent := Rows(rows),
      summaries := Records(KeepRecords(RecordsOf(body.summaries), identities)),
      earlier := Some(EarlierSummary(earlier.messageCount + |dropped|, earlier.turnCount + CutOf(body, keep),
                                     RangesAfter(earlier.ranges, SequencesOf(dropped)), {})),
      investigation := KeepInvestigation(body.investigation, TaskIds(rows) + set t | t in body.pinned),
      sourceSequences := (set x | x in SequencesOf(rows)),
      note := TurnNote(previews, omitReads),
      rendering := TurnsCompacted(body.rendering.payload, keep, previews, omitReads))
  }

  /** `r` holds the newest turns of `body` and accounts for all the others. */
  ghost predicate Accounts(body: SessionBody, r: SessionBody)
  {
    && EarlierOf(r).messageCount + |RowsOf(r.recent)| == EarlierOf(body).messageCount + |RowsOf(body.recent)|
    && EarlierOf(r).turnCount + |TurnsOf(r)| == EarlierOf(body).turnCount + |TurnsOf(body)|
    && IsSuffix(TurnsOf(r), TurnsOf(body))
  }

  predicate IsSuffix<T(==)>(a: seq<T>, b: seq<T>)
  {
    |a| <= |b| && a == b[|b| - |a|..]
  }

  lemma CutIsSuffix<T>(s: seq<T>, cut: nat)
    requires cut <= |s|
    ensures IsSuffix(s[cut..], s)
  {
  }

  lemma SuffixOfSuffix<T>(a: seq<T>, b: seq<T>, c: seq<T>)
    requires IsSuffix(a, b) && IsSuffix(b, c)
    ensures IsSuffix(a, c)
  {
    assert c[|c| - |b|..][|b| - |a|..] == c[|c| - |a|..];
  }

  /** One compaction keeps exactly the newest `keep` turns, whole, and accounts for
      the others. */
  lemma CompactBodyAccounts(body: SessionBody, keep: nat, previews: bool, omitReads: bool)
    requires keep <= |TurnsOf(body)|
    ensures |TurnsOf(CompactBody(body, keep, previews, omitReads))| == keep
    ensures Accounts(body, CompactBody(body, keep, previews, omitReads))
  {
    CompactedAccounts(body, keep, CompactBody(body, keep, previews, omitReads));
  }

  lemma CompactedAccounts(body: SessionBody, keep: nat, r: SessionBody)
    requires keep <= |TurnsOf(body)| && r.recent == Rows(KeptOf(body, keep)) && r.earlier.Some?
    requires r.earlier.value.messageCount == EarlierOf(body).messageCount + |DroppedOf(body, keep)|
    requires r.earlier.value.turnCount == EarlierOf(body).turnCount + CutOf(body, keep)
    ensures |TurnsOf(r)| == keep && Accounts(body, r)
  {
    TurnsKept(body, keep);
    RowsCut(body, keep);
    CutIsSuffix(TurnsOf(body), CutOf(body, keep));
    AccountsFor(body, r, CutOf(body, keep), |DroppedOf(body, keep)|);
  }

  lemma AccountsFor(body: SessionBody, r: SessionBody, cut: nat, dropped: nat)
    requires IsSuffix(TurnsOf(r), TurnsOf(body)) && |TurnsOf(r)| + cut == |TurnsOf(body)|
    requires |RowsOf(r.recent)| + dropped == |RowsOf(body.recent)| && r.earlier.Some?
    requires r.earlier.value.messageCount == EarlierOf(body).messageCount + dropped
    requires r.earlier.value.turnCount == EarlierOf(body).turnCount + cut
    ensures Accounts(body, r)
  {
  }

  /** The rows that stay are the newest turns, whole. */
  lemma TurnsKept(body: SessionBody, keep: nat)
    requires keep <= |TurnsOf(body)|
    ensures TurnGroups(KeptOf(body, keep)) == TurnsOf(body)[|TurnsOf(body)| - keep..]
  {
    SuffixKeepsTurns(RowsOf(body.recent), |TurnsOf(body)| - keep);
  }

  lemma RowsCut(body: SessionBody, keep: nat)
    ensures DroppedOf(body, keep) + KeptOf(body, keep) == RowsOf(body.recent)
  {
    var groups, cut := TurnsOf(body), CutOf(body, keep);
    TurnsAreRows(RowsOf(body.recent));
    assert groups == groups[..cut] + groups[cut..];
    FlattenAppend(groups[..cut], groups[cut..]);
  }

  // ---- what stays in a compacted body, entry by entry ------------------------

  /** `kept` are the elements of `list` that are not flagged, in order. */
  ghost predicate Sifts<T>(list: seq<T>, gone: seq<bool>, kept: seq<T>)
  {
    |gone| == |list| && kept == KeepBy(list, gone)
  }

  /** Some row that stays belongs to the same task and turn as the record. */
  predicate HasRow(rows: seq<Row>, record: TaskRecord)
  {
    record.TaskRecord?
    && exists i :: 0 <= i < |rows| &&
         if rows[i].Row? then rows[i].task == record.task && rows[i].turn == record.turn
         else record.task == None && record.turn == None
  }

  /** The record's task is pinned, or some row that stays belongs to it. */
  predicate HasTask(rows: seq<Row>, pinned: seq<string>, record: TaskRecord)
  {
    record.TaskRecord? && record.task.Some?
    && (record.task.value in pinned
        || (record.task.value != "" && exists i :: 0 <= i < |rows| && rows[i].Row? && rows[i].task == record.task))
  }

  ghost predicate SiftsByRow(records: seq<TaskRecord>, rows: seq<Row>, kept: seq<TaskRecord>)
  {
    exists gone: seq<bool> :: Sifts(records, gone, kept)
      && forall i :: 0 <= i < |records| ==> (gone[i] <==> !HasRow(rows, records[i]))
  }

  ghost predicate SiftsByTask(records: seq<TaskRecord>, rows: seq<Row>, pinned: seq<string>, kept: seq<TaskRecord>)
  {
    exists gone: seq<bool> :: Sifts(records, gone, kept)
      && forall i :: 0 <= i < |records| ==> (gone[i] <==> !HasTask(rows, pinned, records[i]))
  }

  lemma {:induction false} RecordsSift(records: seq<TaskRecord>, identities: set<Identity>) returns (gone: seq<bool>)
    ensures Sifts(records, gone, KeepRecords(records, identities))
    ensures forall i :: 0 <= i < |records| ==>
              (gone[i] <==> !(records[i].TaskRecord? && (records[i].task, records[i].turn) in identities))
  {
    if records == [] {
      gone := [];
    } else {
      var rest := RecordsSift(records[1..], identities);
      var flag := !(records[0].TaskRecord? && (records[0].task, records[0].turn) in identities);
      MaskCons(records[0], records[1..], flag, rest);
      gone := [flag] + rest;
      assert records == [records[0]] + records[1..];
    }
  }

  lemma {:induction false} TasksSift(records: seq<TaskRecord>, tasks: set<string>) returns (gone: seq<bool>)
    ensures Sifts(records, gone, KeepOfTasks(records, tasks))
    ensures forall i :: 0 <= i < |records| ==>
              (gone[i] <==> !(records[i].TaskRecord? && records[i].task.Some? && records[i].task.value in tasks))
  {
    if records == [] {
      gone := [];
    } else {
      var rest := TasksSift(records[1..], tasks);
      var r := records[0];
      var flag := !(r.TaskRecord? && r.task.Some? && r.task.value in tasks);
      MaskCons(r, records[1..], flag, rest);
      gone := [flag] + rest;
      assert records == [r] + records[1..];
    }
  }

  lemma RowIdentities(rows: seq<Row>, record: TaskRecord)
    requires record.TaskRecord?
    ensures (record.task, record.turn) in (set row | row in rows :: IdentityOf(row)) <==> HasRow(rows, record)
  {
    var identities := set row | row in rows :: IdentityOf(row);
    if HasRow(rows, record) {
      var i :| 0 <= i < |rows| &&
         if rows[i].Row? then rows[i].task == record.task && rows[i].turn == record.turn
         else record.task == None && record.turn == None;
      assert rows[i] in rows && IdentityOf(rows[i]) in identities;
    }
    if (record.task, record.turn) in identities {
      var row :| row in rows && IdentityOf(row) == (record.task, record.turn);
      var i :| 0 <= i < |rows| && rows[i] == row;
    }
  }

  lemma RowTasks(rows: seq<Row>, pinned: seq<string>, record: TaskRecord)
    requires record.TaskRecord? && record.task.Some?
    ensures record.task.value in TaskIds(rows) + (set t | t in pinned) <==> HasTask(rows, pinned, record)
  {
    if record.task.value in TaskIds(rows) {
      var row :| row in rows && row.Row? && row.task.Some? && row.task.value != "" && row.task.value == record.task.value;
      var i :| 0 <= i < |rows| && rows[i] == row;
    }
  }

  lemma SummariesKept(records: seq<TaskRecord>, rows: seq<Row>)
    ensures SiftsByRow(records, rows, KeepRecords(records, set row | row in rows :: IdentityOf(row)))
  {
    var gone := RecordsSift(records, set row | row in rows :: IdentityOf(row));
    forall i | 0 <= i < |records|
      ensures gone[i] <==> !HasRow(rows, records[i])
    {
      if records[i].TaskRecord? {
        RowIdentities(rows, records[i]);
      }
    }
  }

  lemma EntriesKept(records: seq<TaskRecord>, rows: seq<Row>, pinned: seq<string>)
    ensures SiftsByTask(records, rows, pinned, KeepOfTasks(records, TaskIds(rows) + set t | t in pinned))
  {
    var gone := TasksSift(records, TaskIds(rows) + set t | t in pinned);
    forall i | 0 <= i < |records|
      ensures gone[i] <==> !HasTask(rows, pinned, records[i])
    {
      if records[i].TaskRecord? && records[i].task.Some? {
        RowTasks(rows, pinned, records[i]);
      }
    }
  }

  /** A compacted body, entry by entry: rows are the newest ones; a task record stays with some
      row of its task and turn, an entry of the investigation with a row of its task or a pin;
      the single events are those of the rows. */
  lemma CompactBodyKeeps(body: SessionBody, keep: nat, previews: bool, omitReads: bool)
    ensures var r := CompactBody(body, keep, previews, omitReads);
            && r.recent.Rows? && IsSuffix(r.recent.rows, RowsOf(body.recent))
            && r.summaries.Records? && SiftsByRow(RecordsOf(body.summaries), r.recent.rows, r.summaries.list)
            && (r.investigation.Some? <==> body.investigation.Some?)
            && (r.investigation.Some? ==>
                  InvestigationSifts(body.investigation.value, r.recent.rows, body.pinned, r.investigation.value))
            && (forall x :: x in r.sourceSequences <==> ShowsEvent(r.recent.rows, x))
            && r.note == TurnNote(previews, omitReads) && r.managed == body.managed && r.pinned == body.pinned
  {
    var rows := KeptOf(body, keep);
    RowsCut(body, keep);
    SuffixOfParts(DroppedOf(body, keep), rows);
    SummariesKept(RecordsOf(body.summaries), rows);
    if body.investigation.Some? {
      EntriesKept(RecordsOf(body.investigation.value.resources), rows, body.pinned);
      EntriesKept(RecordsOf(body.investigation.value.questions), rows, body.pinned);
    }
    SequencesAreRows(rows);
  }

  ghost predicate InvestigationSifts(i: Investigation, rows: seq<Row>, pinned: seq<string>, r: Investigation)
  {
    && r.resources.Records? && SiftsByTask(RecordsOf(i.resources), rows, pinned, r.resources.list)
    && r.questions.Records? && SiftsByTask(RecordsOf(i.questions), rows, pinned, r.questions.list)
  }

  lemma SuffixOfParts<T>(a: seq<T>, b: seq<T>)
    ensures IsSuffix(b, a + b)
  {
  }

  /** One of the rows is that event. */
  predicate ShowsEvent(rows: seq<Row>, x: int)
  {
    exists i :: 0 <= i < |rows| && rows[i].Row? && rows[i].sequence == Some(x)
  }

  lemma SequencesAreRows(rows: seq<Row>)
    ensures forall x :: x in SequencesOf(rows) <==> ShowsEvent(rows, x)
  {
    forall x
      ensures x in SequencesOf(rows) <==> ShowsEvent(rows, x)
    {
      if x in SequencesOf(rows) {
        var r :| r in rows && r.Row? && r.sequence == Some(x);
        var i :| 0 <= i < |rows| && rows[i] == r;
      }
    }
  }

  /** Events the body shows, or has in a recorded range. */
  ghost predicate Anchored(body: SessionBody, x: int)
  {
    x in SequencesOf(RowsOf(body.recent)) || Covers(EarlierOf(body).ranges, x)
  }

  /** Events the body points at in any way; its two lists of single events included. */
  ghost predicate Traceable(body: SessionBody, x: int)
  {
    Anchored(body, x) || x in body.sourceSequences || x in EarlierOf(body).sequences
  }

  /** Compaction rewrites both lists: an event stays traceable exactly if a row shows it
      or a range covers it, and none is invented. What was only listed is lost. */
  lemma CompactBodyTraces(body: SessionBody, keep: nat, previews: bool, omitReads: bool, x: int)
    requires Proper(EarlierOf(body).ranges)
    ensures var r := CompactBody(body, keep, previews, omitReads);
            && Proper(EarlierOf(r).ranges)
            && (Anchored(r, x) <==> Anchored(body, x)) && (Traceable(r, x) <==> Anchored(body, x))
  {
    RowsCut(body, keep);
    RangesCoverExactly(EarlierOf(body).ranges, SequencesOf(DroppedOf(body, keep)), x);
  }

  /** A concrete loss: event 7 is named by the body's list only, not by its one row. */
  lemma ListedOnlyIsLost(previews: bool, omitReads: bool)
    ensures var row := Row(None, Some("a"), true, Some(1), 0);
            var body := SessionBody(true, Rows([row]), [], {1, 7}, None, NoRecords, None, NoNote, Original(0));
            && Traceable(body, 7) && Traceable(CompactBody(body, 1, previews, omitReads), 1)
            && !Traceable(CompactBody(body, 1, previews, omitReads), 7)
  {
    var row := Row(None, Some("a"), true, Some(1), 0);
    var body := SessionBody(true, Rows([row]), [], {1, 7}, None, NoRecords, None, NoNote, Original(0));
    assert SequencesOf([row]) == [1] + SequencesOf([row][1..]);
    CompactBodyTraces(body, 1, previews, omitReads, 1);
    CompactBodyTraces(body, 1, previews, omitReads, 7);
  }

  lemma AccountsTransitive(a: SessionBody, b: SessionBody, c: SessionBody)
    requires Accounts(a, b) && Accounts(b, c)
    ensures Accounts(a, c)
  {
    SuffixOfSuffix(TurnsOf(c), TurnsOf(b), TurnsOf(a));
  }

  /** One pass of the history compactor over a body. */
  datatype Pass = Pass(keep: nat, previews: bool, omitReads: bool)

  function OnePass(body: SessionBody, p: Pass): (r: SessionBody)
  {
    CompactBody(body, KeepIn(body, p), p.previews, p.omitReads)
  }

  function KeepIn(body: SessionBody, p: Pass): (keep: nat)
    ensures keep <= |TurnsOf(body)|
  {
    if p.keep <= |TurnsOf(body)| then p.keep else |TurnsOf(body)|
  }

  function CompactAll(body: SessionBody, passes: seq<Pass>): (r: SessionBody)
    decreases |passes|
  {
    if passes == [] then body else CompactAll(OnePass(body, passes[0]), passes[1..])
  }

  lemma PassAccounts(body: SessionBody, p: Pass)
    ensures Accounts(body, OnePass(body, p))
  {
    CompactBodyAccounts(body, KeepIn(body, p), p.previews, p.omitReads);
  }

  lemma PassTraces(body: SessionBody, p: Pass, x: int)
    requires Proper(EarlierOf(body).ranges)
    ensures Proper(EarlierOf(OnePass(body, p)).ranges)
    ensures Anchored(OnePass(body, p), x) <==> Anchored(body, x)
    ensures Traceable(OnePass(body, p), x) <==> Anchored(body, x)
  {
    CompactBodyTraces(body, KeepIn(body, p), p.previews, p.omitReads, x);
  }

  /** Any number of passes over one body: the counts balance, the turns left are the newest
      ones, and exactly the events a row showed or a range covered stay traceable. */
  lemma {:induction false} RepeatedPasses(body: SessionBody, passes: seq<Pass>, x: int)
    requires Proper(EarlierOf(body).ranges)
    ensures Accounts(body, CompactAll(body, passes))
    ensures Traceable(CompactAll(body, passes), x) <==> if passes == [] then Traceable(body, x) else Anchored(body, x)
    decreases |passes|
  {
    if passes == [] {
      assert TurnsOf(body)[0..] == TurnsOf(body);
    } else {
      PassAccounts(body, passes[0]);
      PassTraces(body, passes[0], x);
      RepeatedPasses(OnePass(body, passes[0]), passes[1..], x);
      AccountsTransitive(body, OnePass(body, passes[0]), CompactAll(body, passes));
    }
  }
}
