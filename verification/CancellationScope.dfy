/** Releasing a task's resources in bounded time (core/cancellation.py). Time is a
    clock in milliseconds that advances only while a cleanup is awaited; what a wait
    brings is chosen by the world. */
module CancellationScope {
  import opened Common

  const PER_RESOURCE_TIMEOUT := 3000

  // ---- one close -----------------------------------------------------------

  /** `Cancelled` is the closing caller being cancelled, not the cleanup. */
  datatype Outcome = Finished | TimedOut | Failed(error: string) | Cancelled

  /** What happens during the wait for one cleanup; `arrivals` are registered meanwhile. */
  datatype Wait = Wait(outcome: Outcome, elapsed: nat, arrivals: seq<string>)

  datatype Report = Report(closed: seq<string>, timedOut: seq<string>, failed: seq<(string, string)>, duration: nat)

  datatype Session = Session(start: nat, deadline: nat, world: nat -> Wait)

  /** The clock when entry `i` comes up. */
  function Clock(s: Session, i: nat): (t: nat)
    ensures t >= s.start
  {
    if i == 0 then s.start
    else
      var t := Clock(s, i - 1);
      if t >= s.deadline then t else t + s.world(i - 1).elapsed
  }

  predicate Starts(s: Session, i: nat)
  {
    Clock(s, i) < s.deadline
  }

  function Budget(s: Session, i: nat): (b: nat)
    requires Starts(s, i)
    ensures 0 < b <= PER_RESOURCE_TIMEOUT && Clock(s, i) + b <= s.deadline
    ensures b == PER_RESOURCE_TIMEOUT || Clock(s, i) + b == s.deadline
  {
    var remaining := s.deadline - Clock(s, i);
    if remaining < PER_RESOURCE_TIMEOUT then remaining else PER_RESOURCE_TIMEOUT
  }

  /** What becomes of entry `i`; one that never starts counts as timed out. */
  function VerdictOf(s: Session, i: nat): (v: Outcome)
  {
    if Starts(s, i) then s.world(i).outcome else TimedOut
  }

  predicate CancelledAt(s: Session, i: nat)
  {
    Starts(s, i) && s.world(i).outcome == Cancelled
  }

  /** How many of `n` entries are settled before the close is cancelled. */
  function SettledCount(s: Session, n: nat): (m: nat)
    ensures m <= n
  {
    if n == 0 then 0
    else
      var m := SettledCount(s, n - 1);
      if m < n - 1 || CancelledAt(s, m) then m else n
  }

  lemma {:induction false} SettledMeans(s: Session, n: nat, i: nat)
    requires i < SettledCount(s, n)
    ensures VerdictOf(s, i) != Cancelled
  {
    if SettledCount(s, n - 1) > i {
      SettledMeans(s, n - 1, i);
    }
  }

  /** How many of `n` entries had their turn, the one whose wait was cancelled included. */
  function Ran(s: Session, n: nat): (m: nat)
  {
    var m := SettledCount(s, n);
    if m < n then m + 1 else n
  }

  function Closed(s: Session, names: seq<string>): (r: seq<string>)
  {
    if names == [] then []
    else
      var n := |names| - 1;
      Closed(s, names[..n]) + if VerdictOf(s, n) == Finished then [names[n]] else []
  }

  function Late(s: Session, names: seq<string>): (r: seq<string>)
  {
    if names == [] then []
    else
      var n := |names| - 1;
      Late(s, names[..n]) + if VerdictOf(s, n) == TimedOut then [names[n]] else []
  }

  function Broken(s: Session, names: seq<string>): (r: seq<(string, string)>)
  {
    if names == [] then []
    else
      var n := |names| - 1;
      Broken(s, names[..n]) + if VerdictOf(s, n).Failed? then [(names[n], VerdictOf(s, n).error)] else []
  }

  function ReportOf(s: Session, names: seq<string>): (r: Report)
  {
    Report(Closed(s, names), Late(s, names), Broken(s, names), Clock(s, |names|) - s.start)
  }

  /** One more entry in the report, appended to the list its verdict names. */
  function Noted(r: Report, name: string, verdict: Outcome, elapsed: nat): (more: Report)
  {
    Report(r.closed + if verdict == Finished then [name] else [],
           r.timedOut + if verdict == TimedOut then [name] else [],
           r.failed + if verdict.Failed? then [(name, verdict.error)] else [],
           r.duration + elapsed)
  }

  lemma ReportGrows(s: Session, names: seq<string>, i: nat)
    requires i < |names|
    ensures ReportOf(s, names[..i + 1])
            == Noted(ReportOf(s, names[..i]), names[i], VerdictOf(s, i), if Starts(s, i) then s.world(i).elapsed else 0)
  {
    assert names[..i + 1][..i] == names[..i];
  }

  /** The entries among the first `n` whose cleanup is started, oldest first. */
  function StartedIn(s: Session, n: nat): (r: seq<nat>)
  {
    if n == 0 then [] else StartedIn(s, n - 1) + if Starts(s, n - 1) then [n - 1] else []
  }

  function ArrivedIn(s: Session, n: nat): (r: seq<string>)
  {
    if n == 0 then [] else ArrivedIn(s, n - 1) + if Starts(s, n - 1) then s.world(n - 1).arrivals else []
  }

  // ---- the scope -----------------------------------------------------------

  /** `accepted`, `started` and `scheduled` are histories: the names accepted for
      cleanup, the cleanups started by a close (by position), and those of resources
      that came too late. */
  datatype Scope = Scope(
    entries: seq<string>, closed: bool, report: Option<Report>,
    accepted: seq<string>, started: seq<nat>, scheduled: seq<string>)

  const NEW_SCOPE := Scope([], false, None, [], [], [])

  function Registered(c: Scope, name: string): (r: Scope)
  {
    if c.closed then c.(scheduled := c.scheduled + [name])
    else c.(entries := c.entries + [name], accepted := c.accepted + [name])
  }

  function SessionOf(now: nat, timeout: int, world: nat -> Wait): (s: Session)
  {
    Session(now, now + if timeout > 0 then timeout else 0, world)
  }

  /** A close that is cancelled keeps its entries and leaves no report. */
  function ClosedAll(c: Scope, s: Session): (r: Scope)
  {
    if c.report.Some? then c
    else
      var n := |c.entries|;
      var after := c.(closed := true, started := c.started + StartedIn(s, Ran(s, n)),
                      scheduled := c.scheduled + ArrivedIn(s, Ran(s, n)));
      if SettledCount(s, n) < n then after else after.(entries := [], report := Some(ReportOf(s, c.entries)))
  }

  class CancellationScope {
    var entries: seq<string>
    var closed: bool
    var report: Option<Report>
    ghost var accepted: seq<string>
    ghost var started: seq<nat>
    ghost var scheduled: seq<string>

    ghost function View(): Scope
      reads this
    {
      Scope(entries, closed, report, accepted, started, scheduled)
    }

    constructor ()
      ensures View() == NEW_SCOPE
    {
      entries, closed, report := [], false, None;
      accepted, started, scheduled := [], [], [];
    }

    method Register(name: string) returns (ok: bool)
      modifies this
      ensures View() == Registered(old(View()), name)
      ensures ok == !old(closed)
    {
      if closed {
        scheduled := scheduled + [name];
        return false;
      }
      entries := entries + [name];
      accepted := accepted + [name];
      return true;
    }

    /** Registrations that arrive while a closed scope waits. */
    method Arrive(names: seq<string>)
      requires closed
      modifies this`scheduled
      ensures scheduled == old(scheduled) + names
    {
      scheduled := scheduled + names;
    }

    /** The turn of entry `i`; None when the caller was cancelled while waiting for it. */
    method Settle(i: nat, tally: Report, s: Session) returns (more: Option<Report>)
      requires closed && i < |entries| && tally == ReportOf(s, entries[..i])
      modifies this`started, this`scheduled
      ensures more.None? <==> CancelledAt(s, i)
      ensures more.Some? ==> more.value == ReportOf(s, entries[..i + 1])
      ensures started == old(started) + if Starts(s, i) then [i] else []
      ensures scheduled == old(scheduled) + if Starts(s, i) then s.world(i).arrivals else []
    {
      ReportGrows(s, entries, i);
      if s.start + tally.duration >= s.deadline {
        return Some(Noted(tally, entries[i], TimedOut, 0));
      }
      var wait := s.world(i);
      started := started + [i];
      Arrive(wait.arrivals);
      if wait.outcome == Cancelled {
        return None;
      }
      return Some(Noted(tally, entries[i], wait.outcome, wait.elapsed));
    }

    /** The loop over the entries; None when the caller was cancelled. */
    method Drain(s: Session) returns (result: Option<Report>)
      requires closed
      modifies this`started, this`scheduled
      ensures result.None? <==> SettledCount(s, |entries|) < |entries|
      ensures result.Some? ==> result.value == ReportOf(s, entries)
      ensures started == old(started) + StartedIn(s, Ran(s, |entries|))
      ensures scheduled == old(scheduled) + ArrivedIn(s, Ran(s, |entries|))
    {
      var tally := Report([], [], [], 0);
      for i := 0 to |entries|
        invariant tally == ReportOf(s, entries[..i]) && SettledCount(s, i) == i
        invariant started == old(started) + StartedIn(s, i)
        invariant scheduled == old(scheduled) + ArrivedIn(s, i)
      {
        var more := Settle(i, tally, s);
        HistoryGrows(s, i, old(started), old(scheduled));
        if more.None? {
          CancelStops(s, i, |entries|);
          return None;
        }
        tally := more.value;
      }
      assert entries[..|entries|] == entries;
      return Some(tally);
    }

    /** None when the caller was cancelled. */
    method CloseAll(now: nat, timeout: int, world: nat -> Wait) returns (result: Option<Report>)
      modifies this
      ensures View() == ClosedAll(old(View()), SessionOf(now, timeout, world))
      ensures result == report
      // in terms of the waits alone
      ensures result.Some? && old(report).None? ==>
        IsReport(Session(now, now + if timeout > 0 then timeout else 0, world), old(entries), result.value)
    {
      if report.Some? {
        return report;
      }
      closed := true;
      result := Drain(SessionOf(now, timeout, world));
      if result.Some? {
        ReportIsReport(SessionOf(now, timeout, world), entries);
        entries := [];
        report := result;
      }
    }
  }

  // ---- what a report says, in terms of the waits alone -----------------------

  /** The clock at each entry and at the end: it stands still once the deadline has passed. */
  ghost predicate Ticks(s: Session, times: seq<int>, n: nat)
  {
    && |times| == n + 1 && times[0] == s.start
    && forall i :: 0 <= i < n ==> times[i + 1] == if times[i] < s.deadline then times[i] + s.world(i).elapsed else times[i]
  }

  /** The entries in their order, each in the list of what its wait brought; entries that came
      up at the deadline or later count as timed out. */
  ghost predicate ReportsWaits(s: Session, names: seq<string>, times: seq<int>, r: Report)
    requires Ticks(s, times, |names|)
  {
    && r.duration == times[|names|] - s.start
    && (exists other: seq<bool> :: |other| == |names| && r.closed == KeepBy(names, other)
          && forall i :: 0 <= i < |names| ==> (other[i] <==> !(times[i] < s.deadline && s.world(i).outcome == Finished)))
    && (exists other: seq<bool> :: |other| == |names| && r.timedOut == KeepBy(names, other)
          && forall i :: 0 <= i < |names| ==> (other[i] <==> times[i] < s.deadline && s.world(i).outcome != TimedOut))
    && (exists other: seq<bool> :: |other| == |names| && r.failed == KeepBy(WithErrors(s, names), other)
          && forall i :: 0 <= i < |names| ==> (other[i] <==> !(times[i] < s.deadline && s.world(i).outcome.Failed?)))
  }

  /** Every name with the error its wait would have failed with. */
  function WithErrors(s: Session, names: seq<string>): (pairs: seq<(string, string)>)
  {
    seq(|names|, i requires 0 <= i < |names| =>
      (names[i], if s.world(i).outcome.Failed? then s.world(i).outcome.error else ""))
  }

  ghost predicate IsReport(s: Session, names: seq<string>, r: Report)
  {
    exists times: seq<int> :: Ticks(s, times, |names|) && ReportsWaits(s, names, times, r)
  }

  function Times(s: Session, n: nat): (times: seq<int>)
  {
    seq(n + 1, i requires 0 <= i < n + 1 => Clock(s, i))
  }

  lemma TimesTick(s: Session, n: nat)
    ensures Ticks(s, Times(s, n), n)
  {
  }

  lemma {:induction false} ClosedKept(s: Session, names: seq<string>) returns (other: seq<bool>)
    ensures |other| == |names| && Closed(s, names) == KeepBy(names, other)
    ensures forall i :: 0 <= i < |names| ==> (other[i] <==> VerdictOf(s, i) != Finished)
  {
    if names == [] {
      other := [];
    } else {
      var n := |names| - 1;
      var before := ClosedKept(s, names[..n]);
      other := before + [VerdictOf(s, n) != Finished];
      KeepSplit(names[..n], [names[n]], before, [VerdictOf(s, n) != Finished]);
      assert names == names[..n] + [names[n]];
    }
  }

  lemma {:induction false} LateKept(s: Session, names: seq<string>) returns (other: seq<bool>)
    ensures |other| == |names| && Late(s, names) == KeepBy(names, other)
    ensures forall i :: 0 <= i < |names| ==> (other[i] <==> VerdictOf(s, i) != TimedOut)
  {
    if names == [] {
      other := [];
    } else {
      var n := |names| - 1;
      var before := LateKept(s, names[..n]);
      other := before + [VerdictOf(s, n) != TimedOut];
      KeepSplit(names[..n], [names[n]], before, [VerdictOf(s, n) != TimedOut]);
      assert names == names[..n] + [names[n]];
    }
  }

  lemma {:induction false} BrokenKept(s: Session, names: seq<string>) returns (other: seq<bool>)
    ensures |other| == |names| && Broken(s, names) == KeepBy(WithErrors(s, names), other)
    ensures forall i :: 0 <= i < |names| ==> (other[i] <==> !VerdictOf(s, i).Failed?)
  {
    if names == [] {
      other := [];
    } else {
      var n := |names| - 1;
      var before := BrokenKept(s, names[..n]);
      var pairs := WithErrors(s, names);
      other := before + [!VerdictOf(s, n).Failed?];
      KeepSplit(pairs[..n], [pairs[n]], before, [!VerdictOf(s, n).Failed?]);
      assert pairs == pairs[..n] + [pairs[n]] && pairs[..n] == WithErrors(s, names[..n]);
    }
  }

  lemma ReportIsReport(s: Session, names: seq<string>)
    ensures IsReport(s, names, ReportOf(s, names))
  {
    var times := Times(s, |names|);
    TimesTick(s, |names|);
    var a := ClosedKept(s, names);
    var b := LateKept(s, names);
    var c := BrokenKept(s, names);
    forall i | 0 <= i < |names|
      ensures Starts(s, i) <==> times[i] < s.deadline
    {
    }
    assert ReportsWaits(s, names, times, ReportOf(s, names));
  }

  lemma HistoryGrows(s: Session, i: nat, started: seq<nat>, scheduled: seq<string>)
    ensures started + StartedIn(s, i) + (if Starts(s, i) then [i] else []) == started + StartedIn(s, i + 1)
    ensures scheduled + ArrivedIn(s, i) + (if Starts(s, i) then s.world(i).arrivals else [])
            == scheduled + ArrivedIn(s, i + 1)
  {
  }

  lemma {:induction false} CancelStops(s: Session, i: nat, n: nat)
    requires i < n && SettledCount(s, i) == i && CancelledAt(s, i)
    ensures SettledCount(s, n) == i
    decreases n
  {
    if i + 1 < n {
      CancelStops(s, i, n - 1);
    }
  }

  // ---- the report ----------------------------------------------------------

  function FailedNames(failed: seq<(string, string)>): (names: seq<string>)
  {
    if failed == [] then [] else FailedNames(failed[..|failed| - 1]) + [failed[|failed| - 1].0]
  }

  /** Every name is in exactly one of the three lists, as often as it was accepted. */
  ghost predicate Accounts(r: Report, names: seq<string>)
  {
    multiset(r.closed) + multiset(r.timedOut) + multiset(FailedNames(r.failed)) == multiset(names)
  }

  lemma NotedAccounts(r: Report, names: seq<string>, name: string, verdict: Outcome, elapsed: nat)
    requires Accounts(r, names) && verdict != Cancelled
    ensures Accounts(Noted(r, name, verdict, elapsed), names + [name])
  {
    if verdict.Failed? {
      var failed := r.failed + [(name, verdict.error)];
      assert failed[..|failed| - 1] == r.failed;
    } else {
      assert r.failed + [] == r.failed;
    }
  }

  predicate Unhindered(s: Session, i: nat)
  {
    VerdictOf(s, i) != Cancelled
  }

  lemma {:induction false} ReportAccounts(s: Session, names: seq<string>)
    requires forall i :: 0 <= i < |names| ==> Unhindered(s, i)
    ensures Accounts(ReportOf(s, names), names)
  {
    if names != [] {
      var init, last := names[..|names| - 1], names[|names| - 1];
      ReportAccounts(s, init);
      assert Unhindered(s, |init|) && names == init + [last];
      OneMoreAccounts(s, init, last);
    }
  }

  lemma OneMoreAccounts(s: Session, init: seq<string>, last: string)
    requires Accounts(ReportOf(s, init), init) && Unhindered(s, |init|)
    ensures Accounts(ReportOf(s, init + [last]), init + [last])
  {
    var n, names := |init|, init + [last];
    ReportGrows(s, names, n);
    assert names[..n + 1] == names && names[..n] == init;
    NotedAccounts(ReportOf(s, init), init, last, VerdictOf(s, n), if Starts(s, n) then s.world(n).elapsed else 0);
  }

  ghost predicate WaitsRespectBudgets(s: Session, n: nat)
  {
    forall i :: 0 <= i < n ==> WithinBudget(s, i)
  }

  ghost predicate WithinBudget(s: Session, i: nat)
  {
    Starts(s, i) ==> s.world(i).elapsed <= Budget(s, i)
  }

  /** If every wait keeps to its budget, the whole close ends by its deadline, and no
      single wait is granted more than three seconds. */
  lemma {:induction false} CloseEndsByDeadline(s: Session, n: nat)
    requires s.start <= s.deadline && WaitsRespectBudgets(s, n)
    ensures Clock(s, n) <= s.deadline
  {
    if n > 0 {
      var i := n - 1;
      CloseEndsByDeadline(s, i);
      assert WithinBudget(s, i);
    }
  }

  // ---- whole runs ----------------------------------------------------------

  datatype Op = Register(name: string) | Close(now: nat, timeout: int, world: nat -> Wait)

  function Apply(c: Scope, op: Op): (r: Scope)
  {
    match op
    case Register(name) => Registered(c, name)
    case Close(now, timeout, world) => ClosedAll(c, SessionOf(now, timeout, world))
  }

  function Run(ops: seq<Op>): (c: Scope)
  {
    if ops == [] then NEW_SCOPE else Apply(Run(ops[..|ops| - 1]), ops[|ops| - 1])
  }

  /** A close that has entries to start and time to start them. */
  predicate Works(c: Scope, op: Op)
  {
    op.Close? && c.report.None? && c.entries != [] && op.timeout > 0
  }

  function WorkingCloses(ops: seq<Op>): (k: nat)
  {
    if ops == [] then 0
    else
      var n := |ops| - 1;
      WorkingCloses(ops[..n]) + if Works(Run(ops[..n]), ops[n]) then 1 else 0
  }

  ghost predicate NoRepeats(started: seq<nat>)
  {
    forall i, j :: 0 <= i < j < |started| ==> started[i] != started[j]
  }

  /** Every entry below `n` at most once; the first one if `first`. */
  ghost predicate Distinct(started: seq<nat>, n: nat, first: bool)
  {
    && NoRepeats(started) && (forall i :: 0 <= i < |started| ==> started[i] < n)
    && multiset(started)[0] == if first then 1 else 0
  }

  lemma NextStart(before: seq<nat>, x: nat, first: bool, starts: bool)
    requires Distinct(before, x, first) && (x == 0 ==> !first)
    ensures Distinct(before + if starts then [x] else [], x + 1, first || (x == 0 && starts))
  {
    if starts {
      AppendStart(before, x, first);
    } else {
      assert before + [] == before;
    }
  }

  lemma AppendStart(before: seq<nat>, x: nat, first: bool)
    requires Distinct(before, x, first)
    ensures Distinct(before + [x], x + 1, first || x == 0)
  {
    if x == 0 {
      assert before == [];
    }
  }

  lemma {:induction false} StartsAreDistinct(s: Session, n: nat)
    ensures Distinct(StartedIn(s, n), n, n > 0 && Starts(s, 0))
  {
    if n > 0 {
      var i := n - 1;
      StartsAreDistinct(s, i);
      NextStart(StartedIn(s, i), i, i > 0 && Starts(s, 0), Starts(s, i));
      FirstOrLater(s, i);
    }
  }

  lemma FirstOrLater(s: Session, i: nat)
    ensures ((i > 0 && Starts(s, 0)) || (i == 0 && Starts(s, i))) == Starts(s, 0)
  {
  }

  ghost predicate ReportInvariant(c: Scope)
  {
    && (c.report.None? ==> c.entries == c.accepted)
    && (c.report.Some? ==> c.closed && c.entries == [] && Accounts(c.report.value, c.accepted))
    && (!c.closed ==> c.started == [] && c.scheduled == [])
  }

  lemma RunSnoc(ops: seq<Op>, op: Op)
    ensures Run(ops + [op]) == Apply(Run(ops), op)
  {
    assert (ops + [op])[..|ops|] == ops;
  }

  lemma ReportStep(c: Scope, op: Op)
    requires ReportInvariant(c)
    ensures ReportInvariant(Apply(c, op))
  {
    if op.Close? && c.report.None? {
      var s := SessionOf(op.now, op.timeout, op.world);
      if SettledCount(s, |c.entries|) == |c.entries| {
        forall i | 0 <= i < |c.entries|
          ensures Unhindered(s, i)
        {
          SettledMeans(s, |c.entries|, i);
        }
        ReportAccounts(s, c.entries);
      }
    }
  }

  lemma {:induction false} RunReports(ops: seq<Op>)
    ensures ReportInvariant(Run(ops))
  {
    if ops != [] {
      var init, last := ops[..|ops| - 1], ops[|ops| - 1];
      RunReports(init);
      ReportStep(Run(init), last);
    }
  }

  ghost predicate SameReport(c: Scope, d: Scope)
  {
    d.report == c.report && d.accepted == c.accepted && d.started == c.started
  }

  lemma FinalStep(c: Scope, op: Op)
    requires ReportInvariant(c) && c.report.Some?
    ensures SameReport(c, Apply(c, op))
  {
  }

  lemma {:induction false} StaysFinal(ops: seq<Op>, more: seq<Op>)
    requires Run(ops).report.Some?
    ensures SameReport(Run(ops), Run(ops + more))
  {
    if more == [] {
      assert ops + more == ops;
    } else {
      var init, last := more[..|more| - 1], more[|more| - 1];
      StaysFinal(ops, init);
      NextIsFinal(ops + init, last);
      Regrouped(ops, more);
    }
  }

  lemma NextIsFinal(ops: seq<Op>, op: Op)
    requires Run(ops).report.Some?
    ensures SameReport(Run(ops), Run(ops + [op]))
  {
    RunReports(ops);
    FinalStep(Run(ops), op);
    RunSnoc(ops, op);
  }

  lemma Regrouped(ops: seq<Op>, more: seq<Op>)
    requires more != []
    ensures ops + more[..|more| - 1] + [more[|more| - 1]] == ops + more
  {
  }

  /** However registrations and closes alternate: once there is a report it accounts for
      every resource ever accepted, no later call changes it, starts another cleanup or
      accepts another resource, and every later close returns it. */
  lemma ReportIsFinal(ops: seq<Op>, more: seq<Op>)
    requires Run(ops).report.Some?
    ensures Accounts(Run(ops).report.value, Run(ops).accepted)
    ensures var c, d := Run(ops), Run(ops + more);
            d.report == c.report && d.accepted == c.accepted && d.started == c.started
  {
    RunReports(ops);
    StaysFinal(ops, more);
  }

  ghost predicate StartInvariant(c: Scope, k: nat)
  {
    multiset(c.started)[0] == k && (k == 0 ==> c.started == []) && (k <= 1 ==> NoRepeats(c.started))
  }

  lemma CloseStarts(c: Scope, k: nat, op: Op)
    requires StartInvariant(c, k) && op.Close? && c.report.None?
    ensures StartInvariant(Apply(c, op), k + if Works(c, op) then 1 else 0)
  {
    var s := SessionOf(op.now, op.timeout, op.world);
    var ran := Ran(s, |c.entries|);
    if Works(c, op) {
      StartsAreDistinct(s, ran);
      MoreStarts(c.started, StartedIn(s, ran), ran, k);
    } else {
      StartsNothing(s, ran);
      assert c.started + [] == c.started;
    }
  }

  lemma MoreStarts(started: seq<nat>, more: seq<nat>, n: nat, k: nat)
    requires multiset(started)[0] == k && (k == 0 ==> started == []) && Distinct(more, n, true)
    ensures multiset(started + more)[0] == k + 1 && (k == 0 ==> NoRepeats(started + more))
  {
    if k == 0 {
      assert started + more == more;
    }
  }

  lemma {:induction false} StartsNothing(s: Session, n: nat)
    requires n == 0 || s.deadline <= s.start
    ensures StartedIn(s, n) == []
  {
    if n > 0 {
      StartsNothing(s, n - 1);
    }
  }

  lemma {:induction false} RunStarts(ops: seq<Op>)
    ensures StartInvariant(Run(ops), WorkingCloses(ops))
  {
    if ops != [] {
      var n := |ops| - 1;
      RunStarts(ops[..n]);
      if ops[n].Close? && Run(ops[..n]).report.None? {
        CloseStarts(Run(ops[..n]), WorkingCloses(ops[..n]), ops[n]);
      }
    }
  }

  /** Each accepted cleanup is started at most once over the whole run if and only if at
      most one close had entries and time to work with. */
  lemma StartsAtMostOnce(ops: seq<Op>)
    ensures NoRepeats(Run(ops).started) <==> WorkingCloses(ops) <= 1
  {
    RunStarts(ops);
    if NoRepeats(Run(ops).started) {
      DistinctCount(Run(ops).started);
    }
  }

  lemma {:induction false} DistinctCount(started: seq<nat>)
    requires NoRepeats(started)
    ensures forall x :: multiset(started)[x] <= 1
  {
    if started != [] {
      var n := |started| - 1;
      DistinctCount(started[..n]);
      assert started == started[..n] + [started[n]];
      assert started[n] !in multiset(started[..n]);
    }
  }

  /** No close of the run is cancelled: each one leaves a report. */
  ghost predicate Uncancelled(ops: seq<Op>)
  {
    forall i :: 0 <= i < |ops| && ops[i].Close? ==> Run(ops[..i + 1]).report.Some?
  }

  /** Which is the case whenever no close is cancelled; a cancelled close keeps its
      entries, and the next one starts them again. */
  lemma {:induction false} UncancelledStartsOnce(ops: seq<Op>)
    requires Uncancelled(ops)
    ensures WorkingCloses(ops) <= 1 && NoRepeats(Run(ops).started)
    ensures WorkingCloses(ops) == 1 ==> Run(ops).report.Some?
  {
    if ops != [] {
      var n := |ops| - 1;
      var init := ops[..n];
      forall i | 0 <= i < n && init[i].Close?
        ensures Run(init[..i + 1]).report.Some?
      {
        assert init[..i + 1] == ops[..i + 1];
      }
      UncancelledStartsOnce(init);
      assert ops[..n + 1] == ops;
    }
    StartsAtMostOnce(ops);
  }

  /** The other case does happen, from any run: a close that has entries and time, but is
      cancelled during its first cleanup, and then a second such close. */
  lemma CancelledCloseRepeats(ops: seq<Op>, op: Op)
    requires Works(Run(ops), op) && op.world(0).outcome == Cancelled
    ensures !NoRepeats(Run(ops + [op] + [op]).started)
  {
    var again := ops + [op];
    WorksAgain(Run(ops), Run(again), op);
    RunSnoc(ops, op);
    WorksSnoc(ops, op);
    WorksSnoc(again, op);
    StartsAtMostOnce(again + [op]);
  }

  lemma WorksAgain(c: Scope, d: Scope, op: Op)
    requires Works(c, op) && op.world(0).outcome == Cancelled
    ensures d == Apply(c, op) ==> Works(d, op)
  {
    CancelledKeeps(c, op);
  }

  /** For example with one resource. */
  lemma CancelledCloseStartsAgain(name: string, timeout: int, world: nat -> Wait)
    requires world(0).outcome == Cancelled && timeout > 0
    ensures var op := Close(0, timeout, world); !NoRepeats(Run([Register(name)] + [op] + [op]).started)
  {
    RunSnoc([], Register(name));
    assert [] + [Register(name)] == [Register(name)];
    CancelledCloseRepeats([Register(name)], Close(0, timeout, world));
  }

  lemma WorksSnoc(ops: seq<Op>, op: Op)
    ensures WorkingCloses(ops + [op]) == WorkingCloses(ops) + if Works(Run(ops), op) then 1 else 0
  {
    assert (ops + [op])[..|ops|] == ops;
  }

  /** A close cancelled during its first cleanup leaves no report and keeps the entries. */
  lemma CancelledKeeps(c: Scope, op: Op)
    requires Works(c, op) && op.world(0).outcome == Cancelled
    ensures Apply(c, op).report.None? && Apply(c, op).entries != []
  {
    var s := SessionOf(op.now, op.timeout, op.world);
    assert CancelledAt(s, 0);
    if SettledCount(s, |c.entries|) == |c.entries| {
      SettledMeans(s, |c.entries|, 0);
    }
  }
}
