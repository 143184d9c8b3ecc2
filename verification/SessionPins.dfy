/** Reducing an unmanaged session projection around its pinned Tasks
    (core/context.py, _compact_session_messages). */
module SessionPins {
  import opened Common
  import opened Transcript
  import opened HistoryTurns

  // ---- which rows stay -----------------------------------------------------

  /** Python's str() of an optional task id. */
  function TaskKey(task: Option<string>): (key: string)
  {
    if task.Some? then task.value else "None"
  }

  function PinnedTasks(body: SessionBody): (tasks: set<string>)
  {
    set t | t in body.pinned && t != ""
  }

  predicate IsPinned(row: Row, pinned: set<string>)
  {
    row.Row? && TaskKey(row.task) in pinned
  }

  /** The rows that are pinned (`want`) or not pinned (`!want`), in order. */
  function Select(rows: seq<Row>, pinned: set<string>, want: bool): (r: seq<Row>)
  {
    if rows == [] then []
    else (if IsPinned(rows[0], pinned) == want then [rows[0]] else []) + Select(rows[1..], pinned, want)
  }

  lemma {:induction false} SelectMembers(rows: seq<Row>, pinned: set<string>, want: bool)
    ensures forall x :: x in Select(rows, pinned, want) <==> x in rows && IsPinned(x, pinned) == want
  {
    if rows != [] {
      SelectMembers(rows[1..], pinned, want);
      assert rows == [rows[0]] + rows[1..];
    }
  }

  function Without(rows: seq<Row>, excluded: seq<Row>): (r: seq<Row>)
  {
    if rows == [] then []
    else (if rows[0] in excluded then [] else [rows[0]]) + Without(rows[1..], excluded)
  }

  /** Python's s[-n:] for positive n. */
  function Last<T>(s: seq<T>, n: nat): (r: seq<T>)
    ensures |r| == if n <= |s| then n else |s|
    ensures |s| <= n ==> r == s
  {
    if n <= |s| then s[|s| - n..] else s
  }

  function KeptRows(rows: seq<Row>, pinned: set<string>, floor: nat, ceiling: nat): (kept: seq<Row>)
  {
    var recent := Last(rows, floor);
    if pinned == {} then recent
    else
      var pinnedRows := Select(rows, pinned, true);
      Last(pinnedRows + Without(recent, pinnedRows), ceiling)
  }

  lemma {:induction false} SelectAppend(a: seq<Row>, b: seq<Row>, pinned: set<string>, want: bool)
    ensures Select(a + b, pinned, want) == Select(a, pinned, want) + Select(b, pinned, want)
  {
    if a == [] {
      assert a + b == b;
    } else {
      var first, tail := a[0], a[1..];
      SelectAppend(tail, b, pinned, want);
      SelectCons(first, tail, pinned, want);
      SelectCons(first, tail + b, pinned, want);
      assert a == [first] + tail && a + b == [first] + (tail + b);
      Joined(if IsPinned(first, pinned) == want then [first] else [], Select(tail, pinned, want), Select(b, pinned, want));
    }
  }

  lemma SelectCons(first: Row, rest: seq<Row>, pinned: set<string>, want: bool)
    ensures Select([first] + rest, pinned, want)
         == (if IsPinned(first, pinned) == want then [first] else []) + Select(rest, pinned, want)
  {
    assert ([first] + rest)[1..] == rest;
  }

  lemma {:induction false} SelectConserves(rows: seq<Row>, pinned: set<string>)
    ensures |Select(rows, pinned, true)| + |Select(rows, pinned, false)| == |rows|
    ensures multiset(Select(rows, pinned, true) + Select(rows, pinned, false)) == multiset(rows)
  {
    if rows != [] {
      SelectConserves(rows[1..], pinned);
      assert rows == [rows[0]] + rows[1..];
    }
  }

  lemma {:induction false} SelectLengths(rows: seq<Row>, pinned: set<string>)
    ensures |Select(rows, pinned, true)| + |Select(rows, pinned, false)| == |rows|
  {
    if rows != [] {
      SelectLengths(rows[1..], pinned);
    }
  }

  lemma {:induction false} SelectAll(rows: seq<Row>, pinned: set<string>, want: bool)
    requires forall x :: x in rows ==> IsPinned(x, pinned) == want
    ensures Select(rows, pinned, want) == rows && Select(rows, pinned, !want) == []
  {
    if rows != [] {
      SelectAll(rows[1..], pinned, want);
    }
  }

  /** Excluding the pinned rows by value excludes exactly the pinned rows. */
  lemma {:induction false} WithoutPinned(rows: seq<Row>, excluded: seq<Row>, pinned: set<string>)
    requires forall x :: x in rows ==> (x in excluded <==> IsPinned(x, pinned))
    ensures Without(rows, excluded) == Select(rows, pinned, false)
  {
    if rows != [] {
      WithoutPinned(rows[1..], excluded, pinned);
    }
  }

  /** The kept rows: a suffix of the older pinned rows, then the recent rows with
      their pinned ones first. */
  lemma KeptShape(rows: seq<Row>, pinned: set<string>, floor: nat, ceiling: nat)
    returns (older: seq<Row>, recent: seq<Row>)
    requires floor <= ceiling && pinned != {}
    ensures rows == older + recent && recent == Last(rows, floor)
    ensures KeptRows(rows, pinned, floor, ceiling)
         == Last(Select(older, pinned, true), ceiling - |recent|)
            + (Select(recent, pinned, true) + Select(recent, pinned, false))
  {
    recent := Last(rows, floor);
    older := rows[..|rows| - |recent|];
    assert rows == older + recent;
    SelectAppend(older, recent, pinned, true);
    RecentPlain(rows, recent, pinned);
    SelectLengths(recent, pinned);
    var front, first, last := Select(older, pinned, true), Select(recent, pinned, true), Select(recent, pinned, false);
    Joined(front, first, last);
    LastOfAppend(front, first + last, ceiling);
  }

  lemma RecentPlain(rows: seq<Row>, recent: seq<Row>, pinned: set<string>)
    requires forall x :: x in recent ==> x in rows
    ensures Without(recent, Select(rows, pinned, true)) == Select(recent, pinned, false)
  {
    SelectMembers(rows, pinned, true);
    WithoutPinned(recent, Select(rows, pinned, true), pinned);
  }

  lemma LastOfAppend<T>(a: seq<T>, b: seq<T>, n: nat)
    requires |b| <= n
    ensures Last(a + b, n) == Last(a, n - |b|) + b
  {
  }

  // ---- the promises --------------------------------------------------------

  /** The newest `floor` rows always survive, whichever rows are pinned. */
  lemma NewestSurvive(rows: seq<Row>, pinned: set<string>, floor: nat, ceiling: nat)
    requires floor <= ceiling
    ensures multiset(Last(KeptRows(rows, pinned, floor, ceiling), floor)) == multiset(Last(rows, floor))
  {
    if pinned == {} {
      LastOfLast(rows, floor);
    } else {
      var older, recent := KeptShape(rows, pinned, floor, ceiling);
      NewestOfShape(Select(older, pinned, true), recent, pinned, floor, ceiling);
    }
  }

  lemma NewestOfShape(front: seq<Row>, recent: seq<Row>, pinned: set<string>, floor: nat, ceiling: nat)
    requires |recent| <= floor <= ceiling && (|recent| == floor || front == [])
    ensures multiset(Last(Last(front, ceiling - |recent|)
                          + (Select(recent, pinned, true) + Select(recent, pinned, false)), floor))
         == multiset(recent)
  {
    SelectConserves(recent, pinned);
    LastIsBack(Last(front, ceiling - |recent|), Select(recent, pinned, true) + Select(recent, pinned, false), floor);
  }

  lemma LastIsBack<T>(a: seq<T>, b: seq<T>, n: nat)
    requires |b| == n || (a == [] && |b| <= n)
    ensures Last(a + b, n) == b
  {
  }

  lemma LastOfLast<T>(s: seq<T>, n: nat)
    ensures Last(Last(s, n), n) == Last(s, n)
  {
  }

  lemma LastWithin<T>(s: seq<T>, n: nat)
    ensures multiset(Last(s, n)) <= multiset(s)
  {
    var cut := |s| - |Last(s, n)|;
    assert s == s[..cut] + Last(s, n);
  }

  /** The ceiling bounds what is kept, and nothing is kept twice. */
  lemma KeptIsBounded(rows: seq<Row>, pinned: set<string>, floor: nat, ceiling: nat)
    requires floor <= ceiling
    ensures |KeptRows(rows, pinned, floor, ceiling)| <= ceiling
    ensures |KeptRows(rows, pinned, floor, ceiling)| <= |rows|
    ensures multiset(KeptRows(rows, pinned, floor, ceiling)) <= multiset(rows)
  {
    if pinned == {} {
      LastWithin(rows, floor);
    } else {
      var recent := Last(rows, floor);
      var all := Select(rows, pinned, true) + Select(recent, pinned, false);
      PinnedAndRecentWithin(rows, pinned, floor);
      RecentPlain(rows, recent, pinned);
      LastWithin(all, ceiling);
    }
  }

  lemma PinnedAndRecentWithin(rows: seq<Row>, pinned: set<string>, floor: nat)
    ensures var all := Select(rows, pinned, true) + Select(Last(rows, floor), pinned, false);
            |all| <= |rows| && multiset(all) <= multiset(rows)
  {
    var recent := Last(rows, floor);
    var older := rows[..|rows| - |recent|];
    assert rows == older + recent;
    SelectAppend(older, recent, pinned, false);
    SelectConserves(rows, pinned);
    assert Select(rows, pinned, true) + Select(rows, pinned, false)
        == Select(rows, pinned, true) + Select(older, pinned, false) + Select(recent, pinned, false);
  }

  /** `a` before `b`, without the first elements of `a` that would exceed `n`. */
  function WithoutExcess<T>(a: seq<T>, b: seq<T>, n: nat): (r: seq<T>)
    requires |b| <= n
  {
    var excess := |a| + |b| - n;
    (if excess <= 0 then a else a[excess..]) + b
  }

  /** All pinned rows survive, in order and in front, when they fit beside the
      recent ones; otherwise exactly the excess goes, oldest pinned rows first. */
  lemma PinnedSurvive(rows: seq<Row>, pinned: set<string>, floor: nat, ceiling: nat)
    requires floor <= ceiling && pinned != {}
    ensures |Select(Last(rows, floor), pinned, false)| <= ceiling
    ensures KeptRows(rows, pinned, floor, ceiling)
            == WithoutExcess(Select(rows, pinned, true), Select(Last(rows, floor), pinned, false), ceiling)
  {
    var recent := Last(rows, floor);
    RecentPlain(rows, recent, pinned);
    SelectShorter(recent, pinned, false);
    LastOfPinned(Select(rows, pinned, true), Select(recent, pinned, false), ceiling);
  }

  lemma {:induction false} SelectShorter(rows: seq<Row>, pinned: set<string>, want: bool)
    ensures |Select(rows, pinned, want)| <= |rows|
  {
    if rows != [] {
      SelectShorter(rows[1..], pinned, want);
    }
  }

  lemma LastOfPinned<T>(a: seq<T>, b: seq<T>, n: nat)
    requires |b| <= n
    ensures Last(a + b, n) == WithoutExcess(a, b, n)
  {
    LastOfAppend(a, b, n);
  }

  /** A second round keeps everything the first one kept, in the same order. */
  lemma KeptSettles(rows: seq<Row>, pinned: set<string>, floor: nat, ceiling: nat)
    requires floor <= ceiling
    ensures var kept := KeptRows(rows, pinned, floor, ceiling);
            KeptRows(kept, pinned, floor, ceiling) == kept
  {
    var kept := KeptRows(rows, pinned, floor, ceiling);
    if pinned == {} {
      LastOfLast(rows, floor);
    } else {
      var older, recent := KeptShape(rows, pinned, floor, ceiling);
      var pinnedOlder := Select(older, pinned, true);
      SelectMembers(older, pinned, true);
      var newestOlder := Last(pinnedOlder, ceiling - |recent|);
      assert forall x :: x in newestOlder ==> x in pinnedOlder;
      ShapeSettles(newestOlder, recent, pinned, floor, ceiling);
    }
  }

  lemma ShapeSettles(front: seq<Row>, recent: seq<Row>, pinned: set<string>, floor: nat, ceiling: nat)
    requires pinned != {} && |recent| <= floor <= ceiling && |front| + |recent| <= ceiling
    requires forall x :: x in front ==> IsPinned(x, pinned)
    ensures var kept := front + (Select(recent, pinned, true) + Select(recent, pinned, false));
            KeptRows(kept, pinned, floor, ceiling) == kept
  {
    SelectConserves(recent, pinned);
    SelectMembers(recent, pinned, true);
    SelectMembers(recent, pinned, false);
    var pinnedPart, plain := front + Select(recent, pinned, true), Select(recent, pinned, false);
    assert pinnedPart + plain == front + (Select(recent, pinned, true) + plain);
    PinnedFirstSettles(pinnedPart, plain, pinned, floor, ceiling);
  }

  lemma PinnedFirstSettles(front: seq<Row>, plain: seq<Row>, pinned: set<string>, floor: nat, ceiling: nat)
    requires pinned != {} && |plain| <= floor <= ceiling && |front| + |plain| <= ceiling
    requires forall x :: x in front ==> IsPinned(x, pinned)
    requires forall x :: x in plain ==> !IsPinned(x, pinned)
    ensures KeptRows(front + plain, pinned, floor, ceiling) == front + plain
  {
    var kept := front + plain;
    SelectAppend(front, plain, pinned, true);
    SelectAll(front, pinned, true);
    SelectAll(plain, pinned, false);
    assert Select(kept, pinned, true) == front;
    var newest := Last(kept, floor);
    NewestPlain(front, plain, pinned, floor);
    RecentPlain(kept, newest, pinned);
  }

  lemma NewestPlain(front: seq<Row>, plain: seq<Row>, pinned: set<string>, floor: nat)
    requires |plain| <= floor
    requires forall x :: x in front ==> IsPinned(x, pinned)
    requires forall x :: x in plain ==> !IsPinned(x, pinned)
    ensures Select(Last(front + plain, floor), pinned, false) == plain
  {
    LastOfAppend(front, plain, floor);
    var newest := Last(front, floor - |plain|);
    assert forall x :: x in newest ==> x in front;
    SelectAll(newest, pinned, true);
    SelectAll(plain, pinned, false);
    SelectAppend(newest, plain, pinned, false);
  }

  // ---- the body ------------------------------------------------------------

  function EligibleTasks(rows: seq<Row>, pinned: set<string>): (tasks: set<string>)
  {
    pinned + TaskIds(rows)
  }

  function KeepEligible(records: seq<TaskRecord>, eligible: set<string>): (kept: seq<TaskRecord>)
    ensures |kept| <= |records|
  {
    if records == [] then []
    else
      (if records[0].TaskRecord? && TaskKey(records[0].task) in eligible then [records[0]] else [])
      + KeepEligible(records[1..], eligible)
  }

  /** A missing list becomes an empty one; what is not a list is left alone. */
  function EligiblePart(part: RecordList, eligible: set<string>): (kept: RecordList)
  {
    if part.NotRecords? then part else Records(KeepEligible(RecordsOf(part), eligible))
  }

  function EligibleInvestigation(i: Option<Investigation>, eligible: set<string>): (r: Option<Investigation>)
  {
    if i.Some? then Some(Investigation(EligiblePart(i.value.resources, eligible), EligiblePart(i.value.questions, eligible)))
    else None
  }

  /** Bodies this stage rewrites. */
  predicate Reducible(m: Message)
  {
    SessionBodyOf(m).Some? && !SessionBodyOf(m).value.managed && !SessionBodyOf(m).value.recent.NotAList?
  }

  function ReduceBody(body: SessionBody, floor: nat, ceiling: nat): (r: SessionBody)
  {
    var pinned := PinnedTasks(body);
    var kept := KeptRows(RowsOf(body.recent), pinned, floor, ceiling);
    var eligible := EligibleTasks(kept, pinned);
    ReduceRows(body, kept).(
      summaries := EligiblePart(body.summaries, eligible),
      investigation := EligibleInvestigation(body.investigation, eligible),
      note := SessionNote(floor, ceiling, pinned))
  }

  /** The rows that stay, and the others counted as earlier ones. */
  function ReduceRows(body: SessionBody, kept: seq<Row>): (r: SessionBody)
  {
    var raw := RowsOf(body.recent);
    body.(
      recent := if raw != [] then Rows(kept) else body.recent,
      earlier := if body.earlier.Some? && |kept| < |raw|
                 then Some(body.earlier.value.(messageCount := body.earlier.value.messageCount + |raw| - |kept|))
                 else body.earlier)
  }

  function Reduce(m: Message, floor: nat, ceiling: nat): (r: Message)
  {
    if Reducible(m) then WithBody(m, m.id + COMPACTED, ReduceBody(SessionBodyOf(m).value, floor, ceiling)) else m
  }

  // ---- what stays in a reduced body, entry by entry --------------------------

  /** The text that stands for an optional task id. */
  ghost predicate KeyedBy(task: Option<string>, key: string)
  {
    match task
    case Some(id) => key == id
    case None => key == "None"
  }

  /** The body pins the row's task; the empty pin counts for nothing. */
  ghost predicate PinsRow(body: SessionBody, row: Row)
  {
    row.Row? && exists i :: 0 <= i < |body.pinned| && body.pinned[i] != "" && KeyedBy(row.task, body.pinned[i])
  }

  ghost predicate HasPins(body: SessionBody)
  {
    exists i :: 0 <= i < |body.pinned| && body.pinned[i] != ""
  }

  /** The newest `floor` rows; with pins, all pinned rows and then those of the newest that are
      not pinned, from the end as many as the ceiling allows. */
  ghost predicate KeepsRows(body: SessionBody, floor: nat, ceiling: nat, kept: seq<Row>)
  {
    var rows := RowsOf(body.recent);
    var newest := if floor <= |rows| then rows[|rows| - floor..] else rows;
    if !HasPins(body) then kept == newest
    else
      exists plain: seq<bool>, pins: seq<bool> ::
        Flags(body, rows, plain, false) && Flags(body, newest, pins, true)
        && EndsOf(KeepBy(rows, plain) + KeepBy(newest, pins), ceiling, kept)
  }

  /** The flags say of each row whether it is pinned, or that it is not. */
  ghost predicate Flags(body: SessionBody, rows: seq<Row>, flags: seq<bool>, pinned: bool)
  {
    |flags| == |rows| && forall i :: 0 <= i < |rows| ==> (flags[i] <==> (PinsRow(body, rows[i]) <==> pinned))
  }

  ghost predicate EndsOf<T>(s: seq<T>, n: nat, end: seq<T>)
  {
    end == if n <= |s| then s[|s| - n..] else s
  }

  /** The task of the record is pinned or that of a row that stays. */
  ghost predicate KeepsRecord(body: SessionBody, kept: seq<Row>, record: TaskRecord)
  {
    && record.TaskRecord?
    && ((exists i :: 0 <= i < |body.pinned| && body.pinned[i] != "" && KeyedBy(record.task, body.pinned[i]))
        || exists i :: 0 <= i < |kept| && kept[i].Row? && kept[i].task.Some? && kept[i].task.value != ""
                       && KeyedBy(record.task, kept[i].task.value))
  }

  ghost predicate KeepsList(body: SessionBody, kept: seq<Row>, part: RecordList, r: RecordList)
  {
    if part.NotRecords? then r == part
    else
      r.Records? && exists gone: seq<bool> ::
        Sifts(RecordsOf(part), gone, r.list) && FlagsGone(body, kept, RecordsOf(part), gone)
  }

  ghost predicate FlagsGone(body: SessionBody, kept: seq<Row>, records: seq<TaskRecord>, gone: seq<bool>)
  {
    |gone| == |records| && forall i :: 0 <= i < |records| ==> (gone[i] <==> !KeepsRecord(body, kept, records[i]))
  }

  ghost predicate KeepsInvestigation(body: SessionBody, kept: seq<Row>, r: Option<Investigation>)
  {
    match body.investigation
    case None => r == None
    case Some(i) =>
      r.Some? && KeepsList(body, kept, i.resources, r.value.resources) && KeepsList(body, kept, i.questions, r.value.questions)
  }

  ghost predicate CountsRows(body: SessionBody, dropped: int, r: Option<EarlierSummary>)
  {
    match body.earlier
    case None => r == None
    case Some(e) => r == Some(e.(messageCount := e.messageCount + dropped))
  }

  lemma PinnedIsPins(body: SessionBody, row: Row)
    ensures IsPinned(row, PinnedTasks(body)) <==> PinsRow(body, row)
    ensures PinnedTasks(body) != {} <==> HasPins(body)
  {
    if row.Row? && TaskKey(row.task) in PinnedTasks(body) {
      var i :| 0 <= i < |body.pinned| && body.pinned[i] == TaskKey(row.task);
    }
    if PinnedTasks(body) != {} {
      var t :| t in PinnedTasks(body);
      var i :| 0 <= i < |body.pinned| && body.pinned[i] == t;
    }
    if HasPins(body) {
      var i :| 0 <= i < |body.pinned| && body.pinned[i] != "";
      assert body.pinned[i] in PinnedTasks(body);
    }
  }

  lemma {:induction false} SelectKeeps(rows: seq<Row>, body: SessionBody, want: bool) returns (gone: seq<bool>)
    ensures Flags(body, rows, gone, !want) && Select(rows, PinnedTasks(body), want) == KeepBy(rows, gone)
  {
    if rows == [] {
      gone := [];
    } else {
      var rest := SelectKeeps(rows[1..], body, want);
      var flag := IsPinned(rows[0], PinnedTasks(body)) != want;
      PinnedIsPins(body, rows[0]);
      MaskCons(rows[0], rows[1..], flag, rest);
      gone := [flag] + rest;
      assert rows == [rows[0]] + rows[1..];
    }
  }

  lemma FlagsKeepRows(body: SessionBody, floor: nat, ceiling: nat, newest: seq<Row>, plain: seq<bool>, pins: seq<bool>,
                      kept: seq<Row>)
    requires newest == Last(RowsOf(body.recent), floor) && HasPins(body)
    requires Flags(body, RowsOf(body.recent), plain, false) && Flags(body, newest, pins, true)
    requires EndsOf(KeepBy(RowsOf(body.recent), plain) + KeepBy(newest, pins), ceiling, kept)
    ensures KeepsRows(body, floor, ceiling, kept)
  {
  }

  lemma RowsAreKept(body: SessionBody, floor: nat, ceiling: nat, kept: seq<Row>)
    requires kept == KeptRows(RowsOf(body.recent), PinnedTasks(body), floor, ceiling)
    ensures KeepsRows(body, floor, ceiling, kept)
  {
    var rows, pinned := RowsOf(body.recent), PinnedTasks(body);
    var newest := Last(rows, floor);
    PinnedIsPins(body, Foreign(0));
    if pinned != {} {
      RecentPlain(rows, newest, pinned);
      var plain := SelectKeeps(rows, body, true);
      var pins := SelectKeeps(newest, body, false);
      FlagsKeepRows(body, floor, ceiling, newest, plain, pins, kept);
    }
  }

  lemma EligibleIsKept(body: SessionBody, kept: seq<Row>, record: TaskRecord)
    requires record.TaskRecord?
    ensures TaskKey(record.task) in EligibleTasks(kept, PinnedTasks(body)) <==> KeepsRecord(body, kept, record)
  {
    var key := TaskKey(record.task);
    if key in PinnedTasks(body) {
      var i :| 0 <= i < |body.pinned| && body.pinned[i] == key;
    }
    if key in TaskIds(kept) {
      var row :| row in kept && row.Row? && row.task.Some? && row.task.value != "" && row.task.value == key;
      var i :| 0 <= i < |kept| && kept[i] == row;
    }
  }

  lemma {:induction false} RecordsAreKept(body: SessionBody, kept: seq<Row>, records: seq<TaskRecord>)
    returns (gone: seq<bool>)
    ensures Sifts(records, gone, KeepEligible(records, EligibleTasks(kept, PinnedTasks(body))))
    ensures FlagsGone(body, kept, records, gone)
  {
    if records == [] {
      gone := [];
    } else {
      var rest := RecordsAreKept(body, kept, records[1..]);
      var flag := !KeepsRecord(body, kept, records[0]);
      if records[0].TaskRecord? {
        EligibleIsKept(body, kept, records[0]);
      }
      MaskCons(records[0], records[1..], flag, rest);
      gone := [flag] + rest;
      assert records == [records[0]] + records[1..];
    }
  }

  lemma ListIsKept(body: SessionBody, kept: seq<Row>, part: RecordList, r: RecordList)
    requires r == EligiblePart(part, EligibleTasks(kept, PinnedTasks(body)))
    ensures KeepsList(body, kept, part, r)
  {
    if !part.NotRecords? {
      var gone := RecordsAreKept(body, kept, RecordsOf(part));
    }
  }

  /** Everything but the rows and the lists. */
  ghost predicate SameFrame(body: SessionBody, floor: nat, ceiling: nat, r: SessionBody)
  {
    && (RowsOf(body.recent) == [] ==> r.recent == body.recent)
    && r.note == SessionNote(floor, ceiling, set t | t in body.pinned && t != "")
    && r.managed == body.managed && r.pinned == body.pinned && r.sourceSequences == body.sourceSequences
    && r.rendering == body.rendering
  }

  /** A reduced body, entry by entry. Rows that go are counted as earlier ones if the body
      counts them; records stay with a pin or with a row of their task. */
  ghost predicate KeepsBody(body: SessionBody, floor: nat, ceiling: nat, r: SessionBody)
  {
    var rows, kept := RowsOf(body.recent), RowsOf(r.recent);
    && KeepsRows(body, floor, ceiling, kept) && KeepsList(body, kept, body.summaries, r.summaries)
    && KeepsInvestigation(body, kept, r.investigation) && CountsRows(body, |rows| - |kept|, r.earlier)
    && SameFrame(body, floor, ceiling, r)
  }

  lemma InvestigationIsKept(body: SessionBody, kept: seq<Row>, r: Option<Investigation>)
    requires r == EligibleInvestigation(body.investigation, EligibleTasks(kept, PinnedTasks(body)))
    ensures KeepsInvestigation(body, kept, r)
  {
    if body.investigation.Some? {
      ListIsKept(body, kept, body.investigation.value.resources, r.value.resources);
      ListIsKept(body, kept, body.investigation.value.questions, r.value.questions);
    }
  }

  lemma RowsAreCounted(body: SessionBody, floor: nat, ceiling: nat, kept: seq<Row>, r: SessionBody)
    requires floor <= ceiling && r == ReduceBody(body, floor, ceiling)
    requires kept == KeptRows(RowsOf(body.recent), PinnedTasks(body), floor, ceiling)
    ensures CountsRows(body, |RowsOf(body.recent)| - |kept|, r.earlier)
  {
    KeptIsBounded(RowsOf(body.recent), PinnedTasks(body), floor, ceiling);
  }

  lemma ReducedFields(body: SessionBody, floor: nat, ceiling: nat) returns (kept: seq<Row>, r: SessionBody)
    ensures r == ReduceBody(body, floor, ceiling)
    ensures kept == KeptRows(RowsOf(body.recent), PinnedTasks(body), floor, ceiling) == RowsOf(r.recent)
    ensures SameFrame(body, floor, ceiling, r)
    ensures var eligible := EligibleTasks(kept, PinnedTasks(body));
            r.summaries == EligiblePart(body.summaries, eligible)
            && r.investigation == EligibleInvestigation(body.investigation, eligible)
  {
    kept, r := KeptRows(RowsOf(body.recent), PinnedTasks(body), floor, ceiling), ReduceBody(body, floor, ceiling);
    RoundRows(body, floor, ceiling);
  }

  lemma PartsKeepBody(body: SessionBody, floor: nat, ceiling: nat, kept: seq<Row>, r: SessionBody)
    requires kept == RowsOf(r.recent) && KeepsRows(body, floor, ceiling, kept) && SameFrame(body, floor, ceiling, r)
    requires KeepsList(body, kept, body.summaries, r.summaries) && KeepsInvestigation(body, kept, r.investigation)
    requires CountsRows(body, |RowsOf(body.recent)| - |kept|, r.earlier)
    ensures KeepsBody(body, floor, ceiling, r)
  {
  }

  lemma ReducedBodyKeeps(body: SessionBody, floor: nat, ceiling: nat)
    requires floor <= ceiling
    ensures KeepsBody(body, floor, ceiling, ReduceBody(body, floor, ceiling))
  {
    var kept, r := ReducedFields(body, floor, ceiling);
    RowsAreKept(body, floor, ceiling, kept);
    RowsAreCounted(body, floor, ceiling, kept, r);
    ListIsKept(body, kept, body.summaries, r.summaries);
    InvestigationIsKept(body, kept, r.investigation);
    PartsKeepBody(body, floor, ceiling, kept, r);
  }

  /** A reduced message: the same but for its name and its body. */
  ghost predicate KeepsMessage(m: Message, floor: nat, ceiling: nat, r: Message)
  {
    && r.id == m.id + "-compacted" && r.role == m.role && r.scaffolding == m.scaffolding
    && SessionBodyOf(m).Some? && SessionBodyOf(r).Some?
    && KeepsBody(SessionBodyOf(m).value, floor, ceiling, SessionBodyOf(r).value)
  }

  lemma ReducedMessageKeeps(m: Message, floor: nat, ceiling: nat)
    requires Reducible(m) && floor <= ceiling
    ensures KeepsMessage(m, floor, ceiling, Reduce(m, floor, ceiling))
  {
    var body := SessionBodyOf(m).value;
    assert HasPrefix(m.id + COMPACTED, SESSION_PREFIX);
    WithBodyReadsBack(m, m.id + COMPACTED, ReduceBody(body, floor, ceiling));
    ReducedBodyKeeps(body, floor, ceiling);
  }

  function Size(part: RecordList): (n: nat)
  {
    |RecordsOf(part)|
  }

  function SizeOf(i: Option<Investigation>): (n: nat)
  {
    if i.Some? then Size(i.value.resources) + Size(i.value.questions) else 0
  }

  /** How many rows, task records and investigation entries reducing `m` drops. */
  function RemovedFrom(m: Message, floor: nat, ceiling: nat): (n: int)
  {
    if Reducible(m) then RemovedFromBody(SessionBodyOf(m).value, floor, ceiling) else 0
  }

  function RemovedFromBody(body: SessionBody, floor: nat, ceiling: nat): (n: int)
  {
    var r := ReduceBody(body, floor, ceiling);
    |RowsOf(body.recent)| - |RowsOf(r.recent)| + Size(body.summaries) - Size(r.summaries)
    + SizeOf(body.investigation) - SizeOf(r.investigation)
  }

  function RemovedFromAll(messages: seq<Message>, floor: nat, ceiling: nat): (n: int)
  {
    if messages == [] then 0
    else RemovedFromAll(messages[..|messages| - 1], floor, ceiling) + RemovedFrom(messages[|messages| - 1], floor, ceiling)
  }

  lemma RemovedNext(messages: seq<Message>, i: nat, floor: nat, ceiling: nat)
    requires i < |messages|
    ensures RemovedFromAll(messages[..i + 1], floor, ceiling)
            == RemovedFromAll(messages[..i], floor, ceiling) + RemovedFrom(messages[i], floor, ceiling)
  {
    assert messages[..i + 1][..i] == messages[..i];
  }

  lemma RemovedIsCount(m: Message, floor: nat, ceiling: nat)
    requires floor <= ceiling
    ensures RemovedFrom(m, floor, ceiling) >= 0
  {
    if Reducible(m) {
      RoundRows(SessionBodyOf(m).value, floor, ceiling);
      KeptIsBounded(RowsOf(SessionBodyOf(m).value.recent), PinnedTasks(SessionBodyOf(m).value), floor, ceiling);
    }
  }

  ghost predicate DropsNothing(m: Message, floor: nat, ceiling: nat)
  {
    RemovedFrom(m, floor, ceiling) == 0
  }

  lemma {:induction false} TotalIsCount(messages: seq<Message>, floor: nat, ceiling: nat)
    requires floor <= ceiling
    ensures RemovedFromAll(messages, floor, ceiling) >= 0
  {
    if messages != [] {
      TotalIsCount(messages[..|messages| - 1], floor, ceiling);
      RemovedIsCount(messages[|messages| - 1], floor, ceiling);
    }
  }

  /** The total is zero only if nothing is dropped from any message. */
  lemma {:induction false} NoneRemoved(messages: seq<Message>, floor: nat, ceiling: nat, m: Message)
    requires floor <= ceiling && RemovedFromAll(messages, floor, ceiling) == 0 && m in messages
    ensures DropsNothing(m, floor, ceiling)
  {
    var n := |messages| - 1;
    TotalIsCount(messages[..n], floor, ceiling);
    RemovedIsCount(messages[n], floor, ceiling);
    if m != messages[n] {
      assert m in messages[..n];
      NoneRemoved(messages[..n], floor, ceiling, m);
    }
  }

  lemma {:induction false} NothingToRemove(messages: seq<Message>, floor: nat, ceiling: nat)
    requires forall m :: m in messages ==> DropsNothing(m, floor, ceiling)
    ensures RemovedFromAll(messages, floor, ceiling) == 0
  {
    if messages != [] {
      var n := |messages| - 1;
      assert forall m :: m in messages[..n] ==> m in messages;
      NothingToRemove(messages[..n], floor, ceiling);
      assert DropsNothing(messages[n], floor, ceiling);
    }
  }

  /** A projection that can be reduced gets a new name even if nothing is dropped from
      it: a pass changes the transcript exactly when it holds such a projection. */
  lemma ReducingRenames(messages: seq<Message>, floor: nat, ceiling: nat)
    ensures ReduceAll(messages, floor, ceiling) == messages <==> forall m :: m in messages ==> !Reducible(m)
  {
    var r := ReduceAll(messages, floor, ceiling);
    forall i | 0 <= i < |messages|
      ensures r[i] == messages[i] <==> !Reducible(messages[i])
    {
      ReduceRenames(messages[i], floor, ceiling);
    }
    if m :| m in messages && Reducible(m) {
      var i :| 0 <= i < |messages| && messages[i] == m;
      assert r[i] != messages[i];
    }
  }

  lemma ReduceRenames(m: Message, floor: nat, ceiling: nat)
    ensures Reduce(m, floor, ceiling) == m <==> !Reducible(m)
  {
    assert |m.id + COMPACTED| > |m.id|;
  }

  function ReduceAll(messages: seq<Message>, floor: nat, ceiling: nat): (r: seq<Message>)
  {
    seq(|messages|, i requires 0 <= i < |messages| => Reduce(messages[i], floor, ceiling))
  }

  method CompactSessionMessages(messages: seq<Message>, floor: nat, ceiling: nat)
    returns (projected: seq<Message>, removed: nat)
    requires 1 <= floor <= ceiling
    ensures projected == ReduceAll(messages, floor, ceiling)
    ensures removed == RemovedFromAll(messages, floor, ceiling)
  {
    projected, removed := [], 0;
    for i := 0 to |messages|
      invariant projected == ReduceAll(messages[..i], floor, ceiling)
      invariant removed == RemovedFromAll(messages[..i], floor, ceiling)
    {
      RemovedNext(messages, i, floor, ceiling);
      ReduceNext(messages, i, floor, ceiling);
      var reduced, fewer := CompactSessionMessage(messages[i], floor, ceiling);
      projected := projected + [reduced];
      removed := removed + fewer;
    }
    assert messages[..|messages|] == messages;
  }

  lemma ReduceNext(messages: seq<Message>, i: nat, floor: nat, ceiling: nat)
    requires i < |messages|
    ensures ReduceAll(messages[..i + 1], floor, ceiling)
            == ReduceAll(messages[..i], floor, ceiling) + [Reduce(messages[i], floor, ceiling)]
  {
  }

  /** One turn of the loop. */
  method CompactSessionMessage(message: Message, floor: nat, ceiling: nat) returns (projected: Message, removed: nat)
    requires 1 <= floor <= ceiling
    ensures projected == Reduce(message, floor, ceiling)
    ensures removed == RemovedFrom(message, floor, ceiling)
    ensures Reducible(message) ==> KeepsMessage(message, floor, ceiling, projected)
  {
    if !Reducible(message) {
      return message, 0;
    }
    ReducedMessageKeeps(message, floor, ceiling);
    var body, fewer := CompactSessionBody(SessionBodyOf(message).value, floor, ceiling);
    return WithBody(message, message.id + COMPACTED, body), fewer;
  }

  /** The rows that stay. */
  method KeepRows(raw: seq<Row>, pinned: set<string>, floor: nat, ceiling: nat) returns (recent: seq<Row>)
    ensures recent == KeptRows(raw, pinned, floor, ceiling)
  {
    recent := Last(raw, floor);
    if pinned != {} {
      var pinnedRows := Select(raw, pinned, true);
      recent := pinnedRows + Without(recent, pinnedRows);
      recent := Last(recent, ceiling);
    }
  }

  /** The body's fields are replaced one after the other. */
  method CompactSessionBody(original: SessionBody, floor: nat, ceiling: nat) returns (body: SessionBody, removed: nat)
    requires 1 <= floor <= ceiling
    ensures body == ReduceBody(original, floor, ceiling)
    ensures removed == RemovedFromBody(original, floor, ceiling)
    // in terms of the body alone
    ensures KeepsBody(original, floor, ceiling, body)
  {
    ReducedBodyKeeps(original, floor, ceiling);
    var pinned := PinnedTasks(original);
    var recent := KeepRows(RowsOf(original.recent), pinned, floor, ceiling);
    var eligible := EligibleTasks(recent, pinned);
    KeptIsBounded(RowsOf(original.recent), pinned, floor, ceiling);
    RoundRows(original, floor, ceiling);
    var summaries, a := KeepList(original.summaries, eligible);
    var rows, b := CompactRows(original, recent);
    var investigation, c := KeepParts(original.investigation, eligible);
    body := rows.(summaries := summaries, investigation := investigation, note := SessionNote(floor, ceiling, pinned));
    removed := a + b + c;
  }

  method CompactRows(original: SessionBody, recent: seq<Row>) returns (body: SessionBody, dropped: nat)
    requires |recent| <= |RowsOf(original.recent)|
    ensures body == ReduceRows(original, recent) && dropped == |RowsOf(original.recent)| - |recent|
  {
    body := original;
    var raw := RowsOf(original.recent);
    dropped := |raw| - |recent|;
    if raw != [] {
      body := body.(recent := Rows(recent));
    }
    if dropped != 0 && body.earlier.Some? {
      body := body.(earlier := Some(body.earlier.value.(messageCount := body.earlier.value.messageCount + dropped)));
    }
  }

  method KeepParts(original: Option<Investigation>, eligible: set<string>)
    returns (investigation: Option<Investigation>, removed: nat)
    ensures investigation == EligibleInvestigation(original, eligible)
    ensures removed == SizeOf(original) - SizeOf(investigation)
  {
    if original.None? {
      return None, 0;
    }
    var resources, a := KeepList(original.value.resources, eligible);
    var questions, b := KeepList(original.value.questions, eligible);
    return Some(Investigation(resources, questions)), a + b;
  }

  /** A list loses the entries of Tasks that are not eligible. */
  method KeepList(part: RecordList, eligible: set<string>) returns (kept: RecordList, removed: nat)
    ensures kept == EligiblePart(part, eligible) && removed == Size(part) - Size(kept)
  {
    if part.NotRecords? {
      return part, 0;
    }
    var list := KeepEligible(RecordsOf(part), eligible);
    return Records(list), |RecordsOf(part)| - |list|;
  }

  // ---- any number of rounds ------------------------------------------------

  function ReduceRounds(body: SessionBody, floor: nat, ceiling: nat, rounds: nat): (r: SessionBody)
  {
    if rounds == 0 then body else ReduceBody(ReduceRounds(body, floor, ceiling, rounds - 1), floor, ceiling)
  }

  /** `r` has the pins of `body`, and what it lost in rows it counts as earlier ones. */
  ghost predicate Accounted(body: SessionBody, r: SessionBody)
  {
    && body.earlier.Some? && r.earlier.Some? && r.pinned == body.pinned
    && r.earlier.value.messageCount + |RowsOf(r.recent)|
       == body.earlier.value.messageCount + |RowsOf(body.recent)|
  }

  lemma RoundIsAccounted(body: SessionBody, floor: nat, ceiling: nat)
    requires floor <= ceiling && body.earlier.Some?
    ensures Accounted(body, ReduceBody(body, floor, ceiling))
  {
    KeptIsBounded(RowsOf(body.recent), PinnedTasks(body), floor, ceiling);
  }

  lemma RoundRows(body: SessionBody, floor: nat, ceiling: nat)
    ensures RowsOf(ReduceBody(body, floor, ceiling).recent) == KeptRows(RowsOf(body.recent), PinnedTasks(body), floor, ceiling)
  {
    if RowsOf(body.recent) == [] {
      EmptyRows(PinnedTasks(body), floor, ceiling);
    }
  }

  lemma EmptyRows(pinned: set<string>, floor: nat, ceiling: nat)
    ensures KeptRows([], pinned, floor, ceiling) == []
  {
  }

  lemma AccountedTwice(a: SessionBody, b: SessionBody, c: SessionBody)
    requires Accounted(a, b) && Accounted(b, c)
    ensures Accounted(a, c)
  {
  }

  /** Rows dropped are always accounted for in `earlier_summary`, however many rounds run. */
  lemma {:induction false} RoundsConserve(body: SessionBody, floor: nat, ceiling: nat, rounds: nat)
    requires floor <= ceiling && body.earlier.Some?
    ensures Accounted(body, ReduceRounds(body, floor, ceiling, rounds))
  {
    if rounds > 0 {
      var before := ReduceRounds(body, floor, ceiling, rounds - 1);
      RoundsConserve(body, floor, ceiling, rounds - 1);
      RoundIsAccounted(before, floor, ceiling);
      AccountedTwice(body, before, ReduceBody(before, floor, ceiling));
    }
  }

  /** Rounds after the first drop nothing more. */
  lemma {:induction false} RoundsSettle(body: SessionBody, floor: nat, ceiling: nat, rounds: nat)
    requires floor <= ceiling && rounds >= 1
    ensures var r := ReduceRounds(body, floor, ceiling, rounds);
            r.pinned == body.pinned && RowsOf(r.recent) == KeptRows(RowsOf(body.recent), PinnedTasks(body), floor, ceiling)
  {
    var before := ReduceRounds(body, floor, ceiling, rounds - 1);
    RoundRows(before, floor, ceiling);
    if rounds > 1 {
      RoundsSettle(body, floor, ceiling, rounds - 1);
      SamePins(before, body);
      KeptSettles(RowsOf(body.recent), PinnedTasks(body), floor, ceiling);
    }
  }

  lemma SamePins(a: SessionBody, b: SessionBody)
    requires a.pinned == b.pinned
    ensures PinnedTasks(a) == PinnedTasks(b)
  {
  }
}
