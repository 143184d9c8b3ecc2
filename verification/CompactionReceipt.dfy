/** The audit record of one compaction (core/context.py, _compaction_receipt). */
module CompactionReceipt {
  import opened Common
  import opened Transcript
  import opened HistoryTurns
  import opened TurnHistory

  /** Durable event sequences a message points at. */
  function Sequences(m: Message): (sequences: set<int>)
  {
    match SessionBodyOf(m)
    case None => {}
    case Some(body) => body.sourceSequences + set x | x in SequencesOf(RowsOf(body.recent))
  }

  function Ids(messages: seq<Message>): (ids: set<string>)
  {
    set m | m in messages :: m.id
  }

  /** A rewritten message keeps its identity but gains the suffix. */
  predicate Survived(id: string, ids: set<string>)
  {
    id in ids || id + COMPACTED in ids
  }

  /** Preserved messages under their id without the suffix; the last one wins. */
  function BySourceId(preserved: seq<Message>): (index: map<string, Message>)
  {
    if preserved == [] then map[]
    else
      var n := |preserved| - 1;
      BySourceId(preserved[..n])[RemoveSuffix(preserved[n].id, COMPACTED) := preserved[n]]
  }

  lemma {:induction false} IndexedBySource(preserved: seq<Message>)
    ensures var index := BySourceId(preserved);
            && (forall id :: id in index ==> index[id] in preserved && RemoveSuffix(index[id].id, COMPACTED) == id)
            && (forall p :: p in preserved ==> RemoveSuffix(p.id, COMPACTED) in index)
  {
    if preserved != [] {
      var n := |preserved| - 1;
      IndexedBySource(preserved[..n]);
      assert preserved == preserved[..n] + [preserved[n]];
    }
  }

  /** What one source message adds to the forgotten sequences. */
  function ForgottenOf(m: Message, preserved: seq<Message>): (sequences: set<int>)
  {
    if !Survived(m.id, Ids(preserved)) then Sequences(m)
    else if m.id in BySourceId(preserved) then Sequences(m) - Sequences(BySourceId(preserved)[m.id])
    else {}
  }

  function ForgottenSequences(source: seq<Message>, preserved: seq<Message>): (sequences: set<int>)
  {
    if source == [] then {}
    else
      var n := |source| - 1;
      ForgottenSequences(source[..n], preserved) + ForgottenOf(source[n], preserved)
  }

  lemma {:induction false} ListedBySomeMessage(source: seq<Message>, preserved: seq<Message>, x: int)
    ensures x in ForgottenSequences(source, preserved) <==> ListedBy(source, preserved, x)
  {
    if source != [] {
      var init, last := source[..|source| - 1], source[|source| - 1];
      ListedBySomeMessage(init, preserved, x);
      ListedByOneMore(init, last, preserved, x);
      ForgottenSnoc(init, last, preserved);
      assert source == init + [last];
    }
  }

  lemma ForgottenSnoc(init: seq<Message>, last: Message, preserved: seq<Message>)
    ensures ForgottenSequences(init + [last], preserved) == ForgottenSequences(init, preserved) + ForgottenOf(last, preserved)
  {
    assert (init + [last])[..|init|] == init;
  }

  ghost predicate ListedBy(source: seq<Message>, preserved: seq<Message>, x: int)
  {
    exists m :: m in source && x in ForgottenOf(m, preserved)
  }

  lemma ListedByOneMore(init: seq<Message>, last: Message, preserved: seq<Message>, x: int)
    ensures ListedBy(init + [last], preserved, x) <==> ListedBy(init, preserved, x) || x in ForgottenOf(last, preserved)
  {
    var all := init + [last];
    if m :| m in init && x in ForgottenOf(m, preserved) {
      assert m in all;
    }
    assert last in all;
    assert forall m :: m in all ==> m in init || m == last;
  }

  /** Ids of source messages without a survivor, in source order. */
  function ForgottenIds(source: seq<Message>, ids: set<string>): (forgotten: seq<string>)
  {
    if source == [] then []
    else
      var n := |source| - 1;
      ForgottenIds(source[..n], ids) + if Survived(source[n].id, ids) then [] else [source[n].id]
  }

  lemma {:induction false} ForgottenWithoutSurvivor(source: seq<Message>, ids: set<string>, id: string)
    ensures id in ForgottenIds(source, ids) <==> id in Ids(source) && !Survived(id, ids)
  {
    if source != [] {
      var n := |source| - 1;
      ForgottenWithoutSurvivor(source[..n], ids, id);
      assert source == source[..n] + [source[n]];
      assert Ids(source) == Ids(source[..n]) + {source[n].id};
    }
  }

  lemma ReceiptStep(source: seq<Message>, preserved: seq<Message>, i: nat)
    requires i < |source|
    ensures ForgottenIds(source[..i + 1], Ids(preserved)) == ForgottenIds(source[..i], Ids(preserved))
              + if Survived(source[i].id, Ids(preserved)) then [] else [source[i].id]
    ensures ForgottenSequences(source[..i + 1], preserved)
            == ForgottenSequences(source[..i], preserved) + ForgottenOf(source[i], preserved)
  {
    assert source[..i + 1][..i] == source[..i];
  }

  // ---- what a receipt says, in terms of the messages alone --------------------

  /** The message is a session projection that lists event `x`, or shows a row of it. */
  ghost predicate PointsAt(m: Message, x: int)
  {
    exists body :: SessionBodyOf(m) == Some(body)
      && (x in body.sourceSequences || (body.recent.Rows? && ShowsEvent(body.recent.rows, x)))
  }

  /** Neither the id itself nor the id with the suffix is among the preserved ones. */
  ghost predicate IsGone(id: string, preserved: seq<Message>)
  {
    forall j :: 0 <= j < |preserved| ==> preserved[j].id != id && preserved[j].id != id + "-compacted"
  }

  /** The preserved message goes by `id` once a suffix is taken off. */
  predicate GoesBy(m: Message, id: string)
  {
    m.id == id + "-compacted" || (m.id == id && !EndsWith(id, "-compacted"))
  }

  ghost predicate LastToGoBy(preserved: seq<Message>, id: string, j: nat)
  {
    j < |preserved| && GoesBy(preserved[j], id) && forall k :: j < k < |preserved| ==> !GoesBy(preserved[k], id)
  }

  /** Event `x` of this message is lost: the message is gone, or the last preserved message that
      goes by its id does not point at it. */
  ghost predicate Loses(m: Message, preserved: seq<Message>, x: int)
  {
    && PointsAt(m, x)
    && (IsGone(m.id, preserved) || exists j: nat :: LastToGoBy(preserved, m.id, j) && !PointsAt(preserved[j], x))
  }

  /** The ids of the messages that are gone, in source order. */
  ghost predicate ListsGone(source: seq<Message>, preserved: seq<Message>, forgotten: seq<string>)
  {
    exists stays: seq<bool> ::
      && |stays| == |source| && (forall i :: 0 <= i < |source| ==> (stays[i] <==> !IsGone(source[i].id, preserved)))
      && forgotten == KeepBy(IdsOf(source), stays)
  }

  function IdsOf(messages: seq<Message>): (ids: seq<string>)
  {
    seq(|messages|, i requires 0 <= i < |messages| => messages[i].id)
  }

  ghost predicate IsReceipt(source: seq<Message>, preserved: seq<Message>, forgotten: seq<string>, sequences: set<int>)
  {
    && ListsGone(source, preserved, forgotten)
    && forall x :: x in sequences <==> exists i :: 0 <= i < |source| && Loses(source[i], preserved, x)
  }

  lemma SequencesArePointedAt(m: Message, x: int)
    ensures x in Sequences(m) <==> PointsAt(m, x)
  {
    if SessionBodyOf(m).Some? {
      SequencesAreRows(RowsOf(SessionBodyOf(m).value.recent));
    }
  }

  lemma SurvivedOrGone(id: string, preserved: seq<Message>)
    ensures Survived(id, Ids(preserved)) <==> !IsGone(id, preserved)
  {
    if !IsGone(id, preserved) {
      var j :| 0 <= j < |preserved| && (preserved[j].id == id || preserved[j].id == id + "-compacted");
      assert preserved[j] in preserved && preserved[j].id in Ids(preserved);
    }
  }

  lemma NameWithoutSuffix(m: Message, id: string)
    ensures RemoveSuffix(m.id, COMPACTED) == id <==> GoesBy(m, id)
  {
    RemoveAppendedSuffix(id, COMPACTED);
  }

  /** The index holds, for each id, the last preserved message that goes by it. */
  lemma {:induction false} IndexHoldsLast(preserved: seq<Message>, id: string) returns (j: nat)
    ensures if id in BySourceId(preserved) then LastToGoBy(preserved, id, j) && preserved[j] == BySourceId(preserved)[id]
            else NoneGoesBy(preserved, id)
  {
    if preserved == [] {
      j := 0;
    } else {
      var n := |preserved| - 1;
      NameWithoutSuffix(preserved[n], id);
      j := IndexHoldsLast(preserved[..n], id);
      if GoesBy(preserved[n], id) {
        j := n;
      } else {
        OthersGoBy(preserved, id, j);
      }
    }
  }

  /** A last message that does not go by the id changes nothing. */
  lemma OthersGoBy(preserved: seq<Message>, id: string, j: nat)
    requires preserved != [] && !GoesBy(preserved[|preserved| - 1], id)
    ensures LastToGoBy(preserved[..|preserved| - 1], id, j) ==> LastToGoBy(preserved, id, j)
    ensures NoneGoesBy(preserved[..|preserved| - 1], id) ==> NoneGoesBy(preserved, id)
  {
    var n := |preserved| - 1;
    forall k | 0 <= k < n
      ensures preserved[..n][k] == preserved[k]
    {
    }
  }

  ghost predicate NoneGoesBy(preserved: seq<Message>, id: string)
  {
    forall k :: 0 <= k < |preserved| ==> !GoesBy(preserved[k], id)
  }

  lemma OneLast(preserved: seq<Message>, id: string, j: nat, k: nat)
    requires LastToGoBy(preserved, id, j) && LastToGoBy(preserved, id, k)
    ensures j == k
  {
  }

  lemma ForgottenIsLost(m: Message, preserved: seq<Message>, x: int)
    ensures x in ForgottenOf(m, preserved) <==> Loses(m, preserved, x)
  {
    SequencesArePointedAt(m, x);
    SurvivedOrGone(m.id, preserved);
    var j := IndexHoldsLast(preserved, m.id);
    if m.id in BySourceId(preserved) {
      SequencesArePointedAt(preserved[j], x);
      forall k: nat | LastToGoBy(preserved, m.id, k)
        ensures k == j
      {
        OneLast(preserved, m.id, j, k);
      }
    }
  }

  lemma {:induction false} GoneIds(source: seq<Message>, preserved: seq<Message>) returns (stays: seq<bool>)
    ensures |stays| == |source| && forall i :: 0 <= i < |source| ==> (stays[i] <==> !IsGone(source[i].id, preserved))
    ensures ForgottenIds(source, Ids(preserved)) == KeepBy(IdsOf(source), stays)
  {
    if source == [] {
      stays := [];
    } else {
      var n := |source| - 1;
      var before := GoneIds(source[..n], preserved);
      var flag := !IsGone(source[n].id, preserved);
      SurvivedOrGone(source[n].id, preserved);
      stays := before + [flag];
      KeepSplit(IdsOf(source[..n]), [source[n].id], before, [flag]);
      assert IdsOf(source) == IdsOf(source[..n]) + [source[n].id];
    }
  }

  lemma ReceiptIsReceipt(source: seq<Message>, preserved: seq<Message>)
    ensures IsReceipt(source, preserved, ForgottenIds(source, Ids(preserved)), ForgottenSequences(source, preserved))
  {
    var stays := GoneIds(source, preserved);
    forall x
      ensures x in ForgottenSequences(source, preserved) <==> exists i :: 0 <= i < |source| && Loses(source[i], preserved, x)
    {
      ListedBySomeMessage(source, preserved, x);
      SomeLoses(source, preserved, x);
    }
  }

  lemma SomeLoses(source: seq<Message>, preserved: seq<Message>, x: int)
    ensures ListedBy(source, preserved, x) <==> exists i :: 0 <= i < |source| && Loses(source[i], preserved, x)
  {
    if ListedBy(source, preserved, x) {
      var m :| m in source && x in ForgottenOf(m, preserved);
      var i :| 0 <= i < |source| && source[i] == m;
      ForgottenIsLost(m, preserved, x);
    }
    if i :| 0 <= i < |source| && Loses(source[i], preserved, x) {
      ForgottenIsLost(source[i], preserved, x);
      assert source[i] in source;
    }
  }

  method IndexBySource(preserved: seq<Message>) returns (index: map<string, Message>)
    ensures index == BySourceId(preserved)
  {
    index := map[];
    for i := 0 to |preserved|
      invariant index == BySourceId(preserved[..i])
    {
      assert preserved[..i + 1][..i] == preserved[..i];
      index := index[RemoveSuffix(preserved[i].id, COMPACTED) := preserved[i]];
    }
    assert preserved[..|preserved|] == preserved;
  }

  method Receipt(source: seq<Message>, preserved: seq<Message>)
    returns (forgotten: seq<string>, sequences: set<int>)
    ensures forgotten == ForgottenIds(source, Ids(preserved))
    ensures sequences == ForgottenSequences(source, preserved)
    // in terms of the messages alone
    ensures IsReceipt(source, preserved, forgotten, sequences)
  {
    var preservedIds := Ids(preserved);
    var index := IndexBySource(preserved);
    forgotten, sequences := [], {};
    for i := 0 to |source|
      invariant forgotten == ForgottenIds(source[..i], preservedIds)
      invariant sequences == ForgottenSequences(source[..i], preserved)
    {
      var m := source[i];
      ReceiptStep(source, preserved, i);
      if !Survived(m.id, preservedIds) {
        forgotten := forgotten + [m.id];
        sequences := sequences + Sequences(m);
      } else if m.id in index {
        sequences := sequences + (Sequences(m) - Sequences(index[m.id]));
      }
    }
    assert source[..|source|] == source;
    ReceiptIsReceipt(source, preserved);
  }

  // ---- what the audit covers -----------------------------------------------

  /** A survivor the suffix lookup cannot find. */
  predicate Blind(m: Message, preserved: seq<Message>)
  {
    EndsWith(m.id, COMPACTED) && m.id in Ids(preserved) && m.id + COMPACTED !in Ids(preserved)
  }

  /** The lookup finds every survivor except exactly the blind ones. */
  lemma LookupFindsSurvivors(m: Message, preserved: seq<Message>)
    requires Survived(m.id, Ids(preserved))
    ensures m.id in BySourceId(preserved) <==> !Blind(m, preserved)
  {
    RemoveAppendedSuffix(m.id, COMPACTED);
    IndexedBySource(preserved);
    if m.id in Ids(preserved) {
      var p :| p in preserved && p.id == m.id;
      assert RemoveSuffix(p.id, COMPACTED) in BySourceId(preserved);
    }
    if m.id + COMPACTED in Ids(preserved) {
      var p :| p in preserved && p.id == m.id + COMPACTED;
      assert RemoveSuffix(p.id, COMPACTED) in BySourceId(preserved);
    }
    if m.id in BySourceId(preserved) {
      var p := BySourceId(preserved)[m.id];
      assert p.id in Ids(preserved);
    }
  }

  ghost predicate Referenced(x: int, messages: seq<Message>)
  {
    exists m :: m in messages && x in Sequences(m)
  }

  /** Every event the source pointed at is still pointed at or listed as forgotten,
      and nothing else is listed. */
  lemma AuditIsComplete(source: seq<Message>, preserved: seq<Message>, x: int)
    requires forall m :: m in source ==> !EndsWith(m.id, COMPACTED)
    ensures Referenced(x, source) ==> Referenced(x, preserved) || x in ForgottenSequences(source, preserved)
    ensures x in ForgottenSequences(source, preserved) ==> Referenced(x, source)
  {
    AuditUnlessBlind(source, preserved, x);
  }

  /** The same without the restriction on ids: only blind survivors can hide a loss. */
  lemma AuditUnlessBlind(source: seq<Message>, preserved: seq<Message>, x: int)
    requires forall m :: m in source && x in Sequences(m) ==> !Blind(m, preserved)
    ensures Referenced(x, source) ==> Referenced(x, preserved) || x in ForgottenSequences(source, preserved)
    ensures x in ForgottenSequences(source, preserved) ==> Referenced(x, source)
  {
    ListedBySomeMessage(source, preserved, x);
    if Referenced(x, source) {
      var m :| m in source && x in Sequences(m);
      AuditOne(m, preserved, x);
    }
    if x in ForgottenSequences(source, preserved) {
      var m :| m in source && x in ForgottenOf(m, preserved);
      assert x in Sequences(m);
    }
  }

  lemma AuditOne(m: Message, preserved: seq<Message>, x: int)
    requires x in Sequences(m) && !Blind(m, preserved)
    ensures Referenced(x, preserved) || x in ForgottenOf(m, preserved)
  {
    if Survived(m.id, Ids(preserved)) {
      LookupFindsSurvivors(m, preserved);
      IndexedBySource(preserved);
      var after := BySourceId(preserved)[m.id];
      assert after in preserved && (x in Sequences(after) || x in ForgottenOf(m, preserved));
    }
  }

  /** Exactly what is listed: an event some source message pointed at which that
      message's own survivor, if any, no longer points at. */
  lemma ListedExactly(source: seq<Message>, preserved: seq<Message>, x: int)
    requires forall m :: m in source ==> !EndsWith(m.id, COMPACTED)
    ensures x in ForgottenSequences(source, preserved) <==>
            exists m :: m in source && x in Sequences(m)
              && (Survived(m.id, Ids(preserved)) ==>
                    m.id in BySourceId(preserved) && x !in Sequences(BySourceId(preserved)[m.id]))
  {
    ListedBySomeMessage(source, preserved, x);
    forall m | m in source
      ensures Survived(m.id, Ids(preserved)) ==> m.id in BySourceId(preserved)
      ensures x in ForgottenOf(m, preserved) <==>
              x in Sequences(m) && (Survived(m.id, Ids(preserved)) ==>
                m.id in BySourceId(preserved) && x !in Sequences(BySourceId(preserved)[m.id]))
    {
      if Survived(m.id, Ids(preserved)) {
        LookupFindsSurvivors(m, preserved);
      }
    }
  }

  // ---- where the audit is blind --------------------------------------------

  /** What the record of a whole compaction lists of an event that is lost: it is listed
      exactly when some message pointed at it which is not a blind survivor. */
  lemma LossIsListed(source: seq<Message>, preserved: seq<Message>, x: int)
    requires !Referenced(x, preserved)
    ensures x in ForgottenSequences(source, preserved)
            <==> exists m :: m in source && x in Sequences(m) && !Blind(m, preserved)
  {
    ListedBySomeMessage(source, preserved, x);
    forall m | m in source
      ensures x in ForgottenOf(m, preserved) <==> x in Sequences(m) && !Blind(m, preserved)
    {
      if x in Sequences(m) && !Blind(m, preserved) {
        AuditOne(m, preserved, x);
      } else if Blind(m, preserved) {
        LookupFindsSurvivors(m, preserved);
      }
    }
  }

  /** Shortening a managed history a second time does not rename it again ... */
  lemma RenamingSettles(id: string)
    ensures EndsWith(Renamed(id), COMPACTED) && Renamed(Renamed(id)) == Renamed(id)
  {
    RemoveAppendedSuffix(RemoveSuffix(id, COMPACTED), COMPACTED);
  }

  /** ... so the record of a lone history that kept its name lists nothing exactly when
      the name already carried the suffix or nothing was dropped ... */
  lemma SecondRoundIsUnaudited(m: Message, p: Message)
    requires p.id == m.id
    ensures ForgottenSequences([m], [p]) == {} <==> EndsWith(m.id, COMPACTED) || Sequences(m) <= Sequences(p)
  {
    assert m in [m] && p in [p];
    assert Ids([p]) == {m.id};
    assert |m.id + COMPACTED| > |m.id|;
    LookupFindsSurvivors(m, [p]);
    assert ForgottenSequences([m], [p]) == ForgottenOf(m, [p]) by {
      assert [m][..0] == [];
    }
    if Sequences(m) - Sequences(p) == {} {
      assert forall x :: x in Sequences(m) ==> x in Sequences(m) - Sequences(p) || x in Sequences(p);
    }
    assert m.id in BySourceId([p]) ==> BySourceId([p])[m.id] == p;
  }

  /** ... and what a second rewriting drops is never listed, whatever that is. */
  lemma SecondRewritingIsUnaudited(m: Message, keep: nat, again: nat, previews: bool, omitReads: bool)
    requires IsManaged(m) && 1 <= keep <= |TurnsOf(SessionBodyOf(m).value)|
    ensures var first := Rewritten(m, SessionBodyOf(m).value, keep, previews, omitReads);
            && SessionBodyOf(first).Some?
            && ForgottenSequences([first], [Rewritten(first, SessionBodyOf(first).value, again, previews, omitReads)]) == {}
  {
    RewrittenReadsBack(m, keep, previews, omitReads);
    RenamingSettles(m.id);
    var first := Rewritten(m, SessionBodyOf(m).value, keep, previews, omitReads);
    SecondRoundIsUnaudited(first, Rewritten(first, SessionBodyOf(first).value, again, previews, omitReads));
  }

  /** A concrete loss: a history of two turns, compacted once already without dropping
      any, is cut to one. */
  lemma UnauditedExample()
    ensures IsManaged(TwoTurnHistory()) && |TurnsOf(SessionBodyOf(TwoTurnHistory()).value)| == 2
    ensures var m := Rewritten(TwoTurnHistory(), SessionBodyOf(TwoTurnHistory()).value, 2, false, true);
            IsManaged(m) && LostUnseen(m, 1)
  {
    var source := TwoTurnHistory();
    var body := SessionBody(true, Rows([TurnRow("a", 1), TurnRow("b", 2)]), [], {1, 2}, None, NoRecords, None, NoNote, Original(0));
    WithBodyReadsBack(Message(SESSION_PREFIX + "1", User, [], Ordinary), SESSION_PREFIX + "1", body);
    assert SessionBodyOf(source) == Some(body);
    TwoTurns(TurnRow("a", 1), TurnRow("b", 2));
    CompactedAgain(source, body);
  }

  function TurnRow(turn: string, sequence: int): (row: Row)
  {
    Row(None, Some(turn), true, Some(sequence), 0)
  }

  function TwoTurnHistory(): (m: Message)
  {
    var body := SessionBody(true, Rows([TurnRow("a", 1), TurnRow("b", 2)]), [], {1, 2}, None, NoRecords, None, NoNote, Original(0));
    WithBody(Message(SESSION_PREFIX + "1", User, [], Ordinary), SESSION_PREFIX + "1", body)
  }

  lemma CompactedAgain(source: Message, body: SessionBody)
    requires IsManaged(source) && SessionBodyOf(source) == Some(body)
    requires TurnsOf(body) == [[TurnRow("a", 1)], [TurnRow("b", 2)]]
    ensures var m := Rewritten(source, body, 2, false, true); IsManaged(m) && LostUnseen(m, 1)
  {
    var m, once := Rewritten(source, body, 2, false, true), CompactBody(body, 2, false, true);
    RewrittenReadsBack(source, 2, false, true);
    assert TurnsOf(body)[0..] == TurnsOf(body);
    RenamingSettles(source.id);
    AllTurnsKept(body, TurnRow("a", 1), TurnRow("b", 2));
    CutLoses(m, once, TurnRow("a", 1), TurnRow("b", 2), 1);
  }

  lemma AllTurnsKept(body: SessionBody, older: Row, newer: Row)
    requires TurnsOf(body) == [[older], [newer]] && older.Row? && older.sequence.Some?
    ensures older.sequence.value in CompactBody(body, 2, false, true).sourceSequences
  {
    var groups := TurnsOf(body);
    assert groups[0..] == groups && groups[1..] == [[newer]];
    assert KeptOf(body, 2) == Flatten(groups);
    assert Flatten(groups)[0] == older;
    assert older in KeptOf(body, 2);
  }

  /** Cutting `m` to its newest turn loses `x`, and the record of that does not list it. */
  ghost predicate LostUnseen(m: Message, x: int)
    requires IsManaged(m)
  {
    var p := Rewritten(m, SessionBodyOf(m).value, 1, false, true);
    Referenced(x, [m]) && !Referenced(x, [p]) && x !in ForgottenSequences([m], [p])
  }

  lemma CutLoses(m: Message, body: SessionBody, older: Row, newer: Row, x: int)
    requires IsManaged(m) && SessionBodyOf(m) == Some(body) && m.id == Renamed(m.id) && EndsWith(m.id, COMPACTED)
    requires TurnsOf(body) == [[older], [newer]] && x in body.sourceSequences
    requires newer.Row? && newer.sequence.Some? && newer.sequence != Some(x)
    ensures LostUnseen(m, x)
  {
    var p := Rewritten(m, body, 1, false, true);
    RewrittenReadsBack(m, 1, false, true);
    NewestKept(body, newer, false, true);
    OnlyKept(p, CompactBody(body, 1, false, true), newer);
    LostBy(m, p, x);
  }

  lemma LostBy(m: Message, p: Message, x: int)
    requires p.id == m.id && EndsWith(m.id, COMPACTED) && x in Sequences(m) && x !in Sequences(p)
    ensures Referenced(x, [m]) && !Referenced(x, [p]) && x !in ForgottenSequences([m], [p])
  {
    SecondRoundIsUnaudited(m, p);
    assert m in [m];
  }

  lemma NewestKept(body: SessionBody, newer: Row, previews: bool, omitReads: bool)
    requires TurnsOf(body) != [] && TurnsOf(body)[|TurnsOf(body)| - 1] == [newer]
    ensures CompactBody(body, 1, previews, omitReads).recent == Rows([newer])
    ensures CompactBody(body, 1, previews, omitReads).sourceSequences == set x | x in SequencesOf([newer])
  {
    NewestTurn(body);
    FlattenSingle([newer]);
  }

  lemma OnlyKept(p: Message, cut: SessionBody, newer: Row)
    requires SessionBodyOf(p) == Some(cut) && cut.recent == Rows([newer])
    requires cut.sourceSequences == set x | x in SequencesOf([newer])
    ensures forall x :: x in Sequences(p) ==> newer.Row? && newer.sequence == Some(x)
  {
  }

  lemma NewestTurn(body: SessionBody)
    requires TurnsOf(body) != []
    ensures KeptOf(body, 1) == Flatten([TurnsOf(body)[|TurnsOf(body)| - 1]])
  {
    var groups := TurnsOf(body);
    assert groups[|groups| - 1..] == [groups[|groups| - 1]];
  }

  lemma TwoTurns(older: Row, newer: Row)
    requires older.Row? && newer.Row? && older.turn == Some("a") && newer.turn == Some("b")
    ensures TurnGroups([older, newer]) == [[older], [newer]]
  {
    assert [older, newer][1..] == [newer];
    assert TurnGroups([newer]) == [[newer]];
  }
}
