/** Fitting managed histories into the token budget by whole turns
    (core/context.py, _compact_turn_history). */
module TurnHistory {
  import opened Common
  import opened Transcript
  import opened HistoryTurns

  type Fits = seq<Message> -> bool

  function Renamed(id: string): (r: string)
  {
    RemoveSuffix(id, COMPACTED) + COMPACTED
  }

  function Rewritten(m: Message, body: SessionBody, keep: nat, previews: bool, omitReads: bool): (r: Message)
  {
    WithBody(m, Renamed(m.id), CompactBody(body, keep, previews, omitReads))
  }

  function Candidate(conversation: seq<Message>, index: nat, body: SessionBody, keep: nat, previews: bool, omitReads: bool):
    (r: seq<Message>)
    requires index < |conversation|
  {
    conversation[index := Rewritten(conversation[index], body, keep, previews, omitReads)]
  }

  /** A message whose history this stage may shorten. */
  predicate IsManaged(m: Message)
  {
    SessionBodyOf(m).Some? && SessionBodyOf(m).value.managed && TurnsOf(SessionBodyOf(m).value) != []
  }

  ghost predicate RewrittenFrom(m: Message, r: Message)
  {
    IsManaged(m) && exists keep: nat, previews, omitReads ::
      1 <= keep <= |TurnsOf(SessionBodyOf(m).value)|
      && r == Rewritten(m, SessionBodyOf(m).value, keep, previews, omitReads)
  }

  /** A history of which only the newest turn is left. */
  ghost predicate OneTurn(m: Message)
  {
    SessionBodyOf(m).Some? && |TurnsOf(SessionBodyOf(m).value)| == 1
  }

  /** The newest `keep` turns fit, without extras. */
  predicate FitsWith(conversation: seq<Message>, index: nat, body: SessionBody, fits: Fits, keep: nat)
    requires index < |conversation|
  {
    fits(Candidate(conversation, index, body, keep, false, true))
  }

  /** Fewer turns fit whenever more turns do. */
  ghost predicate DownwardClosed(conversation: seq<Message>, index: nat, body: SessionBody, fits: Fits)
    requires index < |conversation|
  {
    forall j: nat, k: nat :: 1 <= j <= k <= |TurnsOf(body)| && FitsWith(conversation, index, body, fits, k)
      ==> FitsWith(conversation, index, body, fits, j)
  }

  lemma RenamedKeepsPrefix(id: string)
    requires HasPrefix(id, SESSION_PREFIX)
    ensures HasPrefix(Renamed(id), SESSION_PREFIX)
  {
  }

  lemma RewrittenReadsBack(m: Message, keep: nat, previews: bool, omitReads: bool)
    requires IsManaged(m) && 1 <= keep <= |TurnsOf(SessionBodyOf(m).value)|
    ensures var body := SessionBodyOf(m).value;
            var r := Rewritten(m, body, keep, previews, omitReads);
            && SessionBodyOf(r) == Some(CompactBody(body, keep, previews, omitReads))
            && Accounts(body, SessionBodyOf(r).value) && |TurnsOf(SessionBodyOf(r).value)| == keep
            && r.role == m.role && r.scaffolding == m.scaffolding
            && r.id == if EndsWith(m.id, "-compacted") then m.id else m.id + "-compacted"
  {
    var body := SessionBodyOf(m).value;
    RenamedKeepsPrefix(m.id);
    WithBodyReadsBack(m, Renamed(m.id), CompactBody(body, keep, previews, omitReads));
    CompactBodyAccounts(body, keep, previews, omitReads);
  }

  lemma IsARewriting(m: Message, keep: nat, previews: bool, omitReads: bool)
    requires IsManaged(m) && 1 <= keep <= |TurnsOf(SessionBodyOf(m).value)|
    ensures RewrittenFrom(m, Rewritten(m, SessionBodyOf(m).value, keep, previews, omitReads))
    ensures keep == 1 ==> OneTurn(Rewritten(m, SessionBodyOf(m).value, keep, previews, omitReads))
  {
    RewrittenReadsBack(m, keep, previews, omitReads);
  }

  /** Lines 523-533: the binary search over whole turns. */
  method SearchTurns(conversation: seq<Message>, index: nat, body: SessionBody, fits: Fits)
    returns (best: seq<Message>, keep: nat)
    requires index < |conversation| && TurnsOf(body) != []
    requires !FitsWith(conversation, index, body, fits, |TurnsOf(body)|)
    ensures 1 <= keep <= |TurnsOf(body)| && best == Candidate(conversation, index, body, keep, false, true)
    ensures FitsWith(conversation, index, body, fits, keep) || keep == 1
    ensures DownwardClosed(conversation, index, body, fits) ==> NoLonger(conversation, index, body, fits, keep)
  {
    ghost var turns := |TurnsOf(body)|;
    keep := 1;
    best := Candidate(conversation, index, body, keep, false, true);
    var low, high := 1, |TurnsOf(body)| - 1;
    while low <= high
      invariant 1 <= low <= high + 1 <= turns
      invariant 1 <= keep <= low && (keep < turns || turns == 1)
      invariant best == Candidate(conversation, index, body, keep, false, true)
      invariant FitsWith(conversation, index, body, fits, keep) || keep == 1
      invariant low == 1 || low == keep + 1
      invariant DownwardClosed(conversation, index, body, fits) ==> NoLonger(conversation, index, body, fits, high)
    {
      var middle := (low + high) / 2;
      var proposed, ok := Propose(conversation, index, body, fits, middle);
      if ok {
        best, keep := proposed, middle;
        low := middle + 1;
      } else {
        TooLong(conversation, index, body, fits, middle, high);
        high := middle - 1;
      }
    }
  }

  method Propose(conversation: seq<Message>, index: nat, body: SessionBody, fits: Fits, keep: nat)
    returns (proposed: seq<Message>, ok: bool)
    requires index < |conversation|
    ensures proposed == Candidate(conversation, index, body, keep, false, true)
    ensures ok == FitsWith(conversation, index, body, fits, keep)
  {
    proposed := Candidate(conversation, index, body, keep, false, true);
    ok := fits(proposed);
  }

  /** No suffix of more than `keep` turns fits. */
  ghost predicate NoLonger(conversation: seq<Message>, index: nat, body: SessionBody, fits: Fits, keep: nat)
    requires index < |conversation|
  {
    forall k: nat :: keep < k <= |TurnsOf(body)| ==> !FitsWith(conversation, index, body, fits, k)
  }

  lemma TooLong(conversation: seq<Message>, index: nat, body: SessionBody, fits: Fits, middle: nat, high: nat)
    requires index < |conversation| && 1 <= middle <= high <= |TurnsOf(body)|
    requires !FitsWith(conversation, index, body, fits, middle)
    ensures DownwardClosed(conversation, index, body, fits) && NoLonger(conversation, index, body, fits, high)
            ==> NoLonger(conversation, index, body, fits, middle - 1)
  {
  }

  /** What the search and the extras promise about the chosen rewriting of one history. */
  ghost predicate BestFit(conversation: seq<Message>, index: nat, body: SessionBody, fits: Fits,
                          keep: nat, previews: bool, omitReads: bool)
    requires index < |conversation|
  {
    var best := Candidate(conversation, index, body, keep, previews, omitReads);
    && 1 <= keep <= |TurnsOf(body)|
    // it fits, or only the newest turn is left
    && (fits(best) || keep == 1)
    // extras are taken when they fit, and never break a fit
    && (previews || !omitReads ==> fits(best))
    && (FitsWith(conversation, index, body, fits, keep) ==> fits(best))
    && (!FitsWith(conversation, index, body, fits, |TurnsOf(body)|) && omitReads ==>
          previews == fits(Candidate(conversation, index, body, keep, true, true))
          && !fits(Candidate(conversation, index, body, keep, previews, false)))
    // under downward closure no longer suffix fits
    && (DownwardClosed(conversation, index, body, fits) ==> NoLonger(conversation, index, body, fits, keep))
  }

  /** Lines 514-544 for one message: the binary search and what spare budget adds. */
  method FitHistory(conversation: seq<Message>, index: nat, body: SessionBody, fits: Fits)
    returns (best: seq<Message>, keep: nat, previews: bool, omitReads: bool)
    requires index < |conversation| && TurnsOf(body) != []
    ensures best == Candidate(conversation, index, body, keep, previews, omitReads)
    ensures BestFit(conversation, index, body, fits, keep, previews, omitReads)
  {
    var turns := |TurnsOf(body)|;
    var allTurns := Candidate(conversation, index, body, turns, false, true);
    if fits(allTurns) {
      return allTurns, turns, false, true;
    }
    best, keep := SearchTurns(conversation, index, body, fits);
    previews, omitReads := false, true;
    var withPreviews := Candidate(conversation, index, body, keep, true, true);
    if fits(withPreviews) {
      best, previews := withPreviews, true;
    }
    var withReads := Candidate(conversation, index, body, keep, fits(withPreviews), false);
    if fits(withReads) {
      best, omitReads := withReads, false;
    }
  }

  // ---- the whole conversation ----------------------------------------------

  /** The conversation when message `i` comes up: the earlier ones are done. */
  function Before(conversation: seq<Message>, r: seq<Message>, i: nat): (current: seq<Message>)
    requires i <= |r| == |conversation|
  {
    r[..i] + conversation[i..]
  }

  /** `x` is `source` rewritten with the best fit, if it has a history and that is needed. */
  ghost predicate SettledAs(current: seq<Message>, i: nat, source: Message, x: Message, fits: Fits)
    requires i < |current|
  {
    if fits(current) || !IsManaged(source) then x == source
    else exists keep: nat, previews, omitReads :: IsBestFit(current, i, source, x, fits, keep, previews, omitReads)
  }

  ghost predicate IsBestFit(current: seq<Message>, i: nat, source: Message, x: Message, fits: Fits,
                            keep: nat, previews: bool, omitReads: bool)
    requires i < |current|
  {
    && IsManaged(source) && BestFit(current, i, SessionBodyOf(source).value, fits, keep, previews, omitReads)
    && x == Rewritten(source, SessionBodyOf(source).value, keep, previews, omitReads)
  }

  /** Message `i` of the result was settled given the earlier ones. */
  ghost predicate Settled(conversation: seq<Message>, r: seq<Message>, i: nat, fits: Fits)
    requires i < |r| == |conversation|
  {
    SettledAs(Before(conversation, r, i), i, conversation[i], r[i], fits)
  }

  /** One turn of the loop: message `i` of the current conversation is settled. */
  method SettleHistory(current: seq<Message>, i: nat, fits: Fits) returns (r: seq<Message>, removed: nat)
    requires i < |current|
    ensures |r| == |current| && r == current[i := r[i]]
    ensures SettledAs(current, i, current[i], r[i], fits)
    ensures removed == 0 <==> fits(current) || !IsManaged(current[i])
    ensures removed == 0 ==> r == current
  {
    r, removed := current, 0;
    var body := SessionBodyOf(current[i]);
    if body == None || !body.value.managed {
      return;
    }
    var groups := HistoryTurnGroups(RowsOf(body.value.recent));
    if groups == [] {
      return;
    }
    if fits(current) {
      return;
    }
    var best, keep, previews, omitReads := FitHistory(current, i, body.value, fits);
    assert IsBestFit(current, i, current[i], best[i], fits, keep, previews, omitReads);
    var kept := SessionBodyOf(best[i]);
    var fewer := |RowsOf(body.value.recent)| - if kept.Some? then |RowsOf(kept.value.recent)| else 0;
    return best, if fewer < 1 then 1 else fewer;
  }

  /** There is a history to shorten and a reason to. */
  predicate MustShorten(conversation: seq<Message>, fits: Fits)
  {
    !fits(conversation) && AnyManaged(conversation)
  }

  predicate AnyManaged(messages: seq<Message>)
  {
    exists m :: m in messages && IsManaged(m)
  }

  lemma NextManaged(messages: seq<Message>, i: nat)
    requires i < |messages|
    ensures AnyManaged(messages[..i + 1]) <==> AnyManaged(messages[..i]) || IsManaged(messages[i])
  {
    assert messages[..i + 1] == messages[..i] + [messages[i]];
  }

  /** Every message is settled in turn. */
  method CompactTurnHistory(conversation: seq<Message>, fits: Fits) returns (r: seq<Message>, removed: nat)
    ensures AllSettled(conversation, r, fits)
    ensures removed == 0 <==> !MustShorten(conversation, fits)
  {
    r, removed := conversation, 0;
    NothingSettled(conversation, fits);
    for index := 0 to |conversation|
      invariant |r| == |conversation| && SettledUpTo(conversation, r, index, fits)
      invariant removed == 0 <==> fits(conversation) || !AnyManaged(conversation[..index])
      invariant removed == 0 ==> r == conversation
    {
      var next, fewer := SettleNext(conversation, r, index, fits);
      NextManaged(conversation, index);
      r, removed := next, removed + fewer;
    }
    assert conversation[..|conversation|] == conversation;
    EverythingSettled(conversation, r, fits);
  }

  method SettleNext(ghost conversation: seq<Message>, current: seq<Message>, i: nat, fits: Fits)
    returns (next: seq<Message>, removed: nat)
    requires i < |current| == |conversation| && SettledUpTo(conversation, current, i, fits)
    ensures |next| == |conversation| && SettledUpTo(conversation, next, i + 1, fits)
    ensures removed == 0 <==> fits(current) || !IsManaged(conversation[i])
    ensures removed == 0 ==> next == current
  {
    next, removed := SettleHistory(current, i, fits);
    NextSettled(conversation, current, next, i, fits);
    assert current[i] == conversation[i];
  }

  /** The first `done` messages are settled, the others untouched. */
  ghost predicate SettledUpTo(conversation: seq<Message>, r: seq<Message>, done: nat, fits: Fits)
    requires done <= |r| == |conversation|
  {
    r == Before(conversation, r, done) && forall i :: 0 <= i < done ==> Settled(conversation, r, i, fits)
  }

  lemma NothingSettled(conversation: seq<Message>, fits: Fits)
    ensures SettledUpTo(conversation, conversation, 0, fits)
  {
  }

  lemma EverythingSettled(conversation: seq<Message>, r: seq<Message>, fits: Fits)
    requires |r| == |conversation| && SettledUpTo(conversation, r, |r|, fits)
    ensures AllSettled(conversation, r, fits)
  {
  }

  lemma NextSettled(conversation: seq<Message>, was: seq<Message>, r: seq<Message>, index: nat, fits: Fits)
    requires index < |r| == |was| == |conversation|
    requires SettledUpTo(conversation, was, index, fits) && r == was[index := r[index]]
    requires SettledAs(was, index, was[index], r[index], fits)
    ensures SettledUpTo(conversation, r, index + 1, fits)
  {
    forall i | 0 <= i < index
      ensures Settled(conversation, r, i, fits)
    {
      assert Settled(conversation, was, i, fits);
      LaterLeaves(conversation, was, r, i, index);
      SameSettled(Before(conversation, was, i), Before(conversation, r, i), i, conversation[i], r[i], fits);
    }
    EarlierDone(conversation, was, r, index);
    SameSettled(was, Before(conversation, r, index), index, conversation[index], r[index], fits);
  }

  lemma SameSettled(current: seq<Message>, again: seq<Message>, i: nat, source: Message, x: Message, fits: Fits)
    requires i < |current| && again == current
    ensures SettledAs(current, i, source, x, fits) ==> SettledAs(again, i, source, x, fits)
  {
  }

  lemma LaterLeaves(conversation: seq<Message>, was: seq<Message>, r: seq<Message>, i: nat, index: nat)
    requires i < index < |was| == |conversation| == |r| && r == was[index := r[index]]
    ensures r[i] == was[i] && Before(conversation, r, i) == Before(conversation, was, i)
  {
  }

  lemma EarlierDone(conversation: seq<Message>, was: seq<Message>, r: seq<Message>, index: nat)
    requires index < |was| == |conversation| == |r| && r == was[index := r[index]]
    requires was == Before(conversation, was, index)
    ensures was[index] == conversation[index] && Before(conversation, r, index) == was
    ensures Before(conversation, r, index + 1) == r
  {
  }

  // ---- what follows --------------------------------------------------------

  ghost predicate AllSettled(conversation: seq<Message>, r: seq<Message>, fits: Fits)
  {
    |r| == |conversation| && forall i :: 0 <= i < |r| ==> Settled(conversation, r, i, fits)
  }

  /** Only managed histories are rewritten, each to some of its newest turns. */
  lemma SettledIsRewritten(conversation: seq<Message>, r: seq<Message>, fits: Fits, i: nat)
    requires AllSettled(conversation, r, fits) && i < |r|
    ensures r[i] == conversation[i] || RewrittenFrom(conversation[i], r[i])
  {
    assert Settled(conversation, r, i, fits);
    var current := Before(conversation, r, i);
    if !fits(current) && IsManaged(conversation[i]) {
      var keep: nat, previews, omitReads :| IsBestFit(current, i, conversation[i], r[i], fits, keep, previews, omitReads);
      IsARewriting(conversation[i], keep, previews, omitReads);
    }
  }

  /** Once the conversation fits, the later histories are left alone. */
  lemma {:induction false} FitIsKept(conversation: seq<Message>, r: seq<Message>, fits: Fits, i: nat)
    requires AllSettled(conversation, r, fits) && i <= |r| && fits(Before(conversation, r, i))
    ensures Before(conversation, r, i) == r && fits(r)
    decreases |r| - i
  {
    if i < |r| {
      assert Settled(conversation, r, i, fits);
      assert Before(conversation, r, i + 1) == Before(conversation, r, i);
      FitIsKept(conversation, r, fits, i + 1);
    } else {
      assert Before(conversation, r, i) == r;
    }
  }

  /** A conversation that fits, or has no managed history, is left alone. */
  lemma FittingIsLeftAlone(conversation: seq<Message>, r: seq<Message>, fits: Fits)
    requires AllSettled(conversation, r, fits) && !MustShorten(conversation, fits)
    ensures r == conversation
  {
    if fits(conversation) {
      assert Before(conversation, r, 0) == conversation;
      FitIsKept(conversation, r, fits, 0);
    } else {
      forall i | 0 <= i < |r|
        ensures r[i] == conversation[i]
      {
        assert conversation[i] in conversation;
        SettledIsRewritten(conversation, r, fits, i);
      }
    }
  }

  /** The result fits, or every managed history is down to its newest turn. */
  lemma FitsOrNewestTurns(conversation: seq<Message>, r: seq<Message>, fits: Fits, i: nat)
    requires AllSettled(conversation, r, fits) && !fits(r) && i < |r| && IsManaged(conversation[i])
    ensures OneTurn(r[i])
  {
    assert Settled(conversation, r, i, fits);
    StillTooLong(conversation, r, fits, i);
    NextBefore(conversation, r, i);
    SettledToOneTurn(Before(conversation, r, i), i, conversation[i], r[i], fits);
  }

  lemma StillTooLong(conversation: seq<Message>, r: seq<Message>, fits: Fits, i: nat)
    requires AllSettled(conversation, r, fits) && !fits(r) && i < |r|
    ensures !fits(Before(conversation, r, i)) && !fits(Before(conversation, r, i + 1))
  {
    if fits(Before(conversation, r, i)) {
      FitIsKept(conversation, r, fits, i);
    }
    if fits(Before(conversation, r, i + 1)) {
      FitIsKept(conversation, r, fits, i + 1);
    }
  }

  lemma NextBefore(conversation: seq<Message>, r: seq<Message>, i: nat)
    requires i < |r| == |conversation|
    ensures Before(conversation, r, i)[i] == conversation[i]
    ensures Before(conversation, r, i)[i := r[i]] == Before(conversation, r, i + 1)
  {
  }

  lemma SettledToOneTurn(current: seq<Message>, i: nat, source: Message, x: Message, fits: Fits)
    requires i < |current| && current[i] == source && SettledAs(current, i, source, x, fits)
    requires !fits(current) && IsManaged(source) && !fits(current[i := x])
    ensures OneTurn(x)
  {
    var keep: nat, previews, omitReads :| IsBestFit(current, i, source, x, fits, keep, previews, omitReads);
    var body := SessionBodyOf(source).value;
    assert Candidate(current, i, body, keep, previews, omitReads) == current[i := x];
    IsARewriting(source, keep, previews, omitReads);
  }
}
