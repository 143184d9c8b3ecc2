/** Behaviour of compaction over any number of rounds (core/context.py 423-466, 823-863, 929-947).
    A run interleaves compaction with appended exchanges, tool results that arrive
    later, and rewritten session projections. Every run equals the run that never
    compacted, with some whole exchanges replaced by one summary of them. */
module CompactionRounds {
  import opened Common
  import opened Transcript
  import opened AtomicGroups
  import opened SummaryFacts
  import opened Compaction

  // ---- the shape one round leaves ------------------------------------------

  /** In front of a dropped group every group is dropped or protected. */
  ghost predicate FoldsTail(groups: seq<Group>, drop: seq<bool>)
    requires |groups| == |drop|
  {
    groups == [] || (
      && (if drop[0] then !ProtectedGroup(groups[0]) else ProtectedGroup(groups[0]) || true !in drop[1..])
      && FoldsTail(groups[1..], drop[1..]))
  }

  /** As above, after the first group, which is always kept. */
  ghost predicate Folds(groups: seq<Group>, drop: seq<bool>)
  {
    |groups| == |drop| && (groups == [] || (!drop[0] && FoldsTail(groups[1..], drop[1..])))
  }

  lemma {:induction false} FoldsTailFromIndexes(groups: seq<Group>, drop: seq<bool>)
    requires |groups| == |drop|
    requires forall j :: 0 <= j < |drop| && drop[j] ==> !ProtectedGroup(groups[j])
    requires forall i, j :: 0 <= i < j < |drop| && drop[j] && !drop[i] ==> ProtectedGroup(groups[i])
    ensures FoldsTail(groups, drop)
  {
    if groups != [] {
      var tail := drop[1..];
      forall j | 0 <= j < |tail| && tail[j]
        ensures !ProtectedGroup(groups[1..][j])
        ensures !drop[0] ==> ProtectedGroup(groups[0])
      {
        assert drop[j + 1];
      }
      FoldsTailFromIndexes(groups[1..], tail);
    }
  }

  lemma DropMaskFolds(groups: seq<Group>, floor: nat)
    requires groups != []
    ensures Folds(groups, DropMask(groups, floor))
  {
    FoldsTailFromIndexes(groups[1..], DropMask(groups, floor)[1..]);
  }

  // ---- a second round on top of a first ------------------------------------

  /** Flags of the original groups after also dropping `more` of those kept by `drop`. */
  function Merge(drop: seq<bool>, more: seq<bool>): (both: seq<bool>)
    requires |KeepBy(drop, drop)| == |more|
    ensures |both| == |drop|
    ensures true in both <==> true in drop || true in more
  {
    if drop == [] then []
    else if drop[0] then [true] + Merge(drop[1..], more)
    else [more[0]] + Merge(drop[1..], more[1..])
  }

  lemma {:induction false} KeepLength<T, U>(s: seq<T>, u: seq<U>, drop: seq<bool>)
    requires |s| == |drop| == |u|
    ensures |KeepBy(s, drop)| == |KeepBy(u, drop)|
  {
    if s != [] {
      KeepLength(s[1..], u[1..], drop[1..]);
    }
  }

  lemma {:induction false} Merged(groups: seq<Group>, drop: seq<bool>, more: seq<bool>)
    requires |groups| == |drop| && |more| == |KeepBy(groups, drop)| == |KeepBy(drop, drop)|
    requires FoldsTail(groups, drop) && FoldsTail(KeepBy(groups, drop), more)
    ensures FoldsTail(groups, Merge(drop, more))
    ensures KeepBy(groups, Merge(drop, more)) == KeepBy(KeepBy(groups, drop), more)
    ensures DropBy(groups, Merge(drop, more)) == DropBy(groups, drop) + DropBy(KeepBy(groups, drop), more)
  {
    if groups != [] {
      var rest := groups[1..];
      KeepLength(rest, drop[1..], drop[1..]);
      if drop[0] {
        Merged(rest, drop[1..], more);
      } else {
        var kept := KeepBy(groups, drop);
        assert kept[0] == groups[0] && kept[1..] == KeepBy(rest, drop[1..]);
        Merged(rest, drop[1..], more[1..]);
        if more[0] {
          assert true !in drop[1..];
          MaskNone(rest, drop[1..]);
        }
      }
    }
  }

  /** Number of groups after splicing with these flags. */
  function SplicedLength(drop: seq<bool>): (n: nat)
  {
    if drop == [] then 0
    else if drop[0] then 1 + |KeepBy(drop[1..], drop[1..])|
    else 1 + SplicedLength(drop[1..])
  }

  lemma {:induction false} SpliceLength(groups: seq<Group>, drop: seq<bool>, s: Group)
    requires |groups| == |drop|
    ensures |Splice(groups, drop, s)| == SplicedLength(drop)
  {
    if groups != [] {
      if drop[0] {
        KeepLength(groups[1..], drop[1..], drop[1..]);
      } else {
        SpliceLength(groups[1..], drop[1..], s);
      }
    }
  }

  /** Flags of the original groups after a round over their spliced form. */
  function Refold(drop: seq<bool>, more: seq<bool>): (both: seq<bool>)
    requires true in drop && |more| == SplicedLength(drop)
    ensures |both| == |drop| && true in both
  {
    if drop[0] then [true] + Merge(drop[1..], more[1..])
    else [more[0]] + Refold(drop[1..], more[1..])
  }

  /** The groups a second round drops: the old summary first, then newer groups. */
  ghost predicate DropsAfter(groups: seq<Group>, drop: seq<bool>, both: seq<bool>, dropped: seq<Group>, s: Group)
    requires |groups| == |drop| == |both|
  {
    dropped != [] && dropped[0] == s && DropBy(groups, both) == DropBy(groups, drop) + dropped[1..]
  }

  /** Splicing a spliced transcript is splicing the original once: the old summary
      is the first thing folded, and what it stood for stays in front. */
  lemma {:induction false} Refolded(groups: seq<Group>, drop: seq<bool>, s: Group, more: seq<bool>, t: Group)
    requires |groups| == |drop| && true in drop && true in more
    requires |more| == |Splice(groups, drop, s)| == SplicedLength(drop)
    requires FoldsTail(groups, drop) && FoldsTail(Splice(groups, drop, s), more)
    requires !ProtectedGroup(s)
    ensures FoldsTail(groups, Refold(drop, more))
    ensures Splice(groups, Refold(drop, more), t) == Splice(Splice(groups, drop, s), more, t)
    ensures DropsAfter(groups, drop, Refold(drop, more), DropBy(Splice(groups, drop, s), more), s)
  {
    if drop[0] {
      RefoldedHere(groups, drop, s, more, t);
    } else {
      var rest := groups[1..];
      var spliced := Splice(rest, drop[1..], s);
      assert Splice(groups, drop, s) == [groups[0]] + spliced;
      assert Splice(groups, drop, s)[1..] == spliced;
      assert ProtectedGroup(groups[0]) && !more[0];
      SpliceLength(rest, drop[1..], s);
      Refolded(rest, drop[1..], s, more[1..], t);
    }
  }

  lemma RefoldedHere(groups: seq<Group>, drop: seq<bool>, s: Group, more: seq<bool>, t: Group)
    requires |groups| == |drop| && true in drop && drop[0] && true in more
    requires |more| == |Splice(groups, drop, s)| == SplicedLength(drop)
    requires FoldsTail(groups, drop) && FoldsTail(Splice(groups, drop, s), more)
    requires !ProtectedGroup(s)
    ensures FoldsTail(groups, Refold(drop, more))
    ensures Splice(groups, Refold(drop, more), t) == Splice(Splice(groups, drop, s), more, t)
    ensures DropsAfter(groups, drop, Refold(drop, more), DropBy(Splice(groups, drop, s), more), s)
  {
    var rest, flags, tail := groups[1..], drop[1..], more[1..];
    var kept := KeepBy(rest, flags);
    assert groups == [groups[0]] + rest && drop == [true] + flags;
    SpliceDropped(groups[0], rest, flags, s);
    assert ([s] + kept)[1..] == kept && more[0] && more == [true] + tail;
    KeepLength(rest, flags, flags);
    Merged(rest, flags, tail);
    SpliceDropped(s, kept, tail, t);
    SpliceDropped(groups[0], rest, Merge(flags, tail), t);
    MaskCons(s, kept, true, tail);
    MaskCons(groups[0], rest, true, flags);
    MaskCons(groups[0], rest, true, Merge(flags, tail));
    MergedHere(groups[0], rest, flags, tail, s);
    FoldsHere(groups[0], rest, Merge(flags, tail));
  }

  lemma SpliceDropped(g: Group, rest: seq<Group>, flags: seq<bool>, s: Group)
    requires |rest| == |flags|
    ensures Splice([g] + rest, [true] + flags, s) == [s] + KeepBy(rest, flags)
  {
    assert ([g] + rest)[1..] == rest && ([true] + flags)[1..] == flags;
  }

  lemma FoldsHere(g: Group, rest: seq<Group>, flags: seq<bool>)
    requires |rest| == |flags| && !ProtectedGroup(g) && FoldsTail(rest, flags)
    ensures FoldsTail([g] + rest, [true] + flags)
  {
    assert ([g] + rest)[1..] == rest && ([true] + flags)[1..] == flags;
  }

  lemma MergedHere(g: Group, rest: seq<Group>, flags: seq<bool>, tail: seq<bool>, s: Group)
    requires |rest| == |flags| && |tail| == |KeepBy(rest, flags)| == |KeepBy(flags, flags)|
    requires DropBy(rest, Merge(flags, tail)) == DropBy(rest, flags) + DropBy(KeepBy(rest, flags), tail)
    ensures [g] + DropBy(rest, Merge(flags, tail)) == [g] + DropBy(rest, flags) + ([s] + DropBy(KeepBy(rest, flags), tail))[1..]
  {
  }

  // ---- the protocol survives -----------------------------------------------

  /** A summary is an exchange of its own. */
  lemma SummaryIsSolo(s: Message)
    requires PriorFacts(s).Some?
    ensures IsSolo([s]) && !ProtectedGroup([s])
  {
    SummaryNotProtected(s);
  }

  lemma ProtocolCons(g: Group, rest: seq<Group>)
    requires (IsSolo(g) || IsBatch(g)) && (rest == [] || IsComplete(g)) && IsProtocol(rest)
    ensures IsProtocol([g] + rest)
  {
  }

  lemma ProtocolHead(groups: seq<Group>)
    requires |groups| > 1 && IsProtocol(groups)
    ensures (IsSolo(groups[0]) || IsBatch(groups[0])) && IsComplete(groups[0]) && IsProtocol(groups[1..])
  {
  }

  lemma {:induction false} KeepProtocol(groups: seq<Group>, drop: seq<bool>)
    requires |groups| == |drop| && groups != [] && !drop[|drop| - 1] && IsProtocol(groups)
    ensures IsProtocol(KeepBy(groups, drop)) && KeepBy(groups, drop) != []
    ensures KeepBy(groups, drop)[|KeepBy(groups, drop)| - 1] == groups[|groups| - 1]
  {
    if |groups| > 1 {
      assert drop[1..][|drop| - 2] == drop[|drop| - 1];
      ProtocolHead(groups);
      KeepProtocol(groups[1..], drop[1..]);
      ProtocolCons(groups[0], KeepBy(groups[1..], drop[1..]));
    } else {
      assert groups[1..] == [] && drop[1..] == [];
    }
  }

  lemma {:induction false} SpliceProtocol(groups: seq<Group>, drop: seq<bool>, s: Group)
    requires |groups| == |drop| && groups != [] && !drop[|drop| - 1]
    requires IsProtocol(groups) && IsSolo(s)
    ensures IsProtocol(Splice(groups, drop, s)) && Splice(groups, drop, s) != []
    ensures Splice(groups, drop, s)[|Splice(groups, drop, s)| - 1] == groups[|groups| - 1]
  {
    if |groups| > 1 {
      assert drop[1..][|drop| - 2] == drop[|drop| - 1];
      ProtocolHead(groups);
      if drop[0] {
        KeepProtocol(groups[1..], drop[1..]);
        ProtocolCons(s, KeepBy(groups[1..], drop[1..]));
      } else {
        SpliceProtocol(groups[1..], drop[1..], s);
        ProtocolCons(groups[0], Splice(groups[1..], drop[1..], s));
      }
    } else {
      assert groups[1..] == [] && drop[1..] == [];
    }
  }

  lemma {:induction false} DroppedComplete(groups: seq<Group>, drop: seq<bool>)
    requires |groups| == |drop| && groups != [] && !drop[|drop| - 1] && IsProtocol(groups)
    ensures forall g :: g in DropBy(groups, drop) ==> IsComplete(g)
  {
    if |groups| > 1 {
      assert drop[1..][|drop| - 2] == drop[|drop| - 1];
      DroppedComplete(groups[1..], drop[1..]);
    } else {
      assert groups[1..] == [] && drop[1..] == [];
    }
  }

  /** The last group is always recent. */
  lemma LastKept(groups: seq<Group>, floor: nat)
    requires groups != [] && floor >= 1
    ensures !DropMask(groups, floor)[|groups| - 1]
  {
    var last := |groups| - 1;
    Retention(groups, floor, last);
    assert Flatten(groups[last + 1..]) == [];
  }

  /** One round keeps the tool protocol, never folds an unfinished batch, and the
      next round sees exactly the groups this one left. */
  lemma CompactionKeepsProtocol(groups: seq<Group>, floor: nat, digest: Digest)
    requires groups != [] && floor >= 1 && IsProtocol(groups)
    ensures var after := CompactGroups(groups, floor, digest);
            IsProtocol(after) && Groups(Flatten(after)) == after
            && after != [] && after[|after| - 1] == groups[|groups| - 1]
    ensures forall g :: g in DropBy(groups, DropMask(groups, floor)) ==> IsComplete(g)
  {
    var drop := DropMask(groups, floor);
    LastKept(groups, floor);
    var s := Summary(Dropped(groups, floor), digest);
    SummaryIsSolo(s);
    SpliceProtocol(groups, drop, [s]);
    GroupsRecoverExchanges(Splice(groups, drop, [s]));
    DroppedComplete(groups, drop);
  }

  // ---- runs ----------------------------------------------------------------

  /** What may happen to a transcript. `Rewrite` is the in-place reduction of
      session projections that precedes every fold. */
  datatype Action =
    | Append(g: Group)
    | Answer(result: Message)
    | Rewrite(f: Message -> Message)
    | Compact(floor: nat, digest: Digest)

  ghost predicate IsSession(m: Message)
  {
    HasPrefix(m.id, SESSION_PREFIX)
  }

  /** An exchange as callers append it: no summaries, and no session projection
      inside a tool exchange. */
  ghost predicate Authored(g: Group)
  {
    && (forall m :: m in g ==> !HasPrefix(m.id, SUMMARY_PREFIX))
    && (IsBatch(g) ==> forall m :: m in g ==> !IsSession(m))
  }

  /** Rewriting touches session projections only and leaves them session projections. */
  ghost predicate RewritesSessions(f: Message -> Message)
  {
    forall m :: if IsSession(m)
                then IsSession(f(m)) && f(m).role == m.role && (f(m) == m || NoToolBlocks(f(m)))
                else f(m) == m
  }

  function MapGroup(f: Message -> Message, g: Group): (r: Group)
    ensures |r| == |g| && forall i :: 0 <= i < |g| ==> r[i] == f(g[i])
  {
    seq(|g|, i requires 0 <= i < |g| => f(g[i]))
  }

  function MapGroups(f: Message -> Message, groups: seq<Group>): (r: seq<Group>)
    ensures |r| == |groups| && forall i :: 0 <= i < |groups| ==> r[i] == MapGroup(f, groups[i])
  {
    seq(|groups|, i requires 0 <= i < |groups| => MapGroup(f, groups[i]))
  }

  /** One action on a transcript, as the runtime performs it. */
  function Apply(t: seq<Message>, a: Action): (r: seq<Message>)
  {
    match a
    case Append(g) => t + g
    case Answer(result) => t + [result]
    case Rewrite(f) => MapGroup(f, t)
    case Compact(floor, digest) =>
      if |Groups(t)| <= 2 then t else Flatten(CompactGroups(Groups(t), floor, digest))
  }

  /** The same action on a transcript that is never compacted. */
  function ApplyUncompacted(t: seq<Message>, a: Action): (r: seq<Message>)
  {
    if a.Compact? then t else Apply(t, a)
  }

  /** What callers may do: follow the protocol. */
  ghost predicate Allowed(t: seq<Message>, a: Action)
  {
    match a
    case Append(g) =>
      && (IsSolo(g) || IsBatch(g)) && Authored(g)
      && (Groups(t) == [] || IsComplete(Groups(t)[|Groups(t)| - 1]))
    case Answer(result) =>
      && Groups(t) != []
      && (var last := Groups(t)[|Groups(t)| - 1];
          IsBatch(last) && IsBatch(last + [result]) && Authored([result]) && !IsSession(result))
    case Rewrite(f) => RewritesSessions(f)
    case Compact(floor, digest) => floor >= 1
  }

  function Run(actions: seq<Action>): (t: seq<Message>)
  {
    if actions == [] then [] else Apply(Run(actions[..|actions| - 1]), actions[|actions| - 1])
  }

  function RunUncompacted(actions: seq<Action>): (t: seq<Message>)
  {
    if actions == [] then []
    else ApplyUncompacted(RunUncompacted(actions[..|actions| - 1]), actions[|actions| - 1])
  }

  ghost predicate AllAllowed(actions: seq<Action>)
  {
    actions == [] ||
    (AllAllowed(actions[..|actions| - 1]) && Allowed(Run(actions[..|actions| - 1]), actions[|actions| - 1]))
  }

  /** `t` is the uncompacted transcript `groups` with the groups flagged by
      `folded` replaced by one summary, whose facts are exactly those of summarising
      all of them at once, in order. */
  ghost predicate Represents(t: seq<Message>, groups: seq<Group>, folded: seq<bool>, s: Message)
  {
    && Folds(groups, folded)
    && PriorFacts(s).Some?
    && t == Flatten(Splice(groups, folded, [s]))
    && (true in folded ==> PriorFacts(s).value == Facts(Flatten(DropBy(groups, folded)), map[]))
  }

  ghost predicate Orderly(groups: seq<Group>)
  {
    IsProtocol(groups) && forall g :: g in groups ==> Authored(g)
  }

  ghost predicate Invariant(t: seq<Message>, u: seq<Message>, groups: seq<Group>, folded: seq<bool>, s: Message)
  {
    && Orderly(groups) && u == Flatten(groups)
    && Represents(t, groups, folded, s)
    && (groups != [] ==> !folded[|folded| - 1])
  }

  // ---- one action at a time ------------------------------------------------

  lemma {:induction false} SpliceNone(groups: seq<Group>, drop: seq<bool>, s: Group)
    requires |groups| == |drop| && true !in drop
    ensures Splice(groups, drop, s) == groups
  {
    if groups != [] {
      var rest, flags := groups[1..], drop[1..];
      assert !drop[0] && true !in flags;
      SpliceNone(rest, flags, s);
      assert groups == [groups[0]] + rest;
    }
  }

  lemma {:induction false} SpliceSnoc(groups: seq<Group>, drop: seq<bool>, s: Group, g: Group)
    requires |groups| == |drop|
    ensures Splice(groups + [g], drop + [false], s) == Splice(groups, drop, s) + [g]
    ensures DropBy(groups + [g], drop + [false]) == DropBy(groups, drop)
  {
    MaskSplit(groups, [g], drop, [false]);
    if groups == [] {
      assert groups + [g] == [g] && drop + [false] == [false];
      assert [g][1..] == [];
    } else {
      assert (groups + [g])[1..] == groups[1..] + [g] && (drop + [false])[1..] == drop[1..] + [false];
      MaskSplit(groups[1..], [g], drop[1..], [false]);
      if !drop[0] {
        SpliceSnoc(groups[1..], drop[1..], s, g);
      }
    }
  }

  lemma {:induction false} FoldsSnoc(groups: seq<Group>, drop: seq<bool>, g: Group)
    requires |groups| == |drop|
    ensures FoldsTail(groups + [g], drop + [false]) <==> FoldsTail(groups, drop)
  {
    if groups == [] {
      assert groups + [g] == [g] && drop + [false] == [false];
    } else {
      assert (groups + [g])[1..] == groups[1..] + [g] && (drop + [false])[1..] == drop[1..] + [false];
      assert true in drop[1..] + [false] <==> true in drop[1..];
      FoldsSnoc(groups[1..], drop[1..], g);
    }
  }

  lemma FoldsHeadSnoc(groups: seq<Group>, drop: seq<bool>, g: Group)
    requires |groups| == |drop|
    ensures Folds(groups + [g], drop + [false]) <==> Folds(groups, drop)
  {
    if groups == [] {
      assert groups + [g] == [g] && drop + [false] == [false];
      assert [g][1..] == [] && [false][1..] == [];
    } else {
      assert (groups + [g])[1..] == groups[1..] + [g] && (drop + [false])[1..] == drop[1..] + [false];
      FoldsSnoc(groups[1..], drop[1..], g);
    }
  }

  lemma VisibleGroups(t: seq<Message>, u: seq<Message>, groups: seq<Group>, folded: seq<bool>, s: Message)
    requires Invariant(t, u, groups, folded, s)
    ensures Groups(u) == groups
    ensures Groups(t) == Splice(groups, folded, [s]) && IsProtocol(Groups(t))
    ensures groups == [] <==> Groups(t) == []
    ensures groups != [] ==> Groups(t)[|Groups(t)| - 1] == groups[|groups| - 1]
  {
    GroupsRecoverExchanges(groups);
    SummaryIsSolo(s);
    if groups != [] {
      SpliceProtocol(groups, folded, [s]);
    }
    GroupsRecoverExchanges(Splice(groups, folded, [s]));
  }

  lemma AfterAppend(t: seq<Message>, u: seq<Message>, groups: seq<Group>, folded: seq<bool>, s: Message, g: Group)
    requires Invariant(t, u, groups, folded, s) && Allowed(t, Append(g))
    ensures Invariant(t + g, u + g, groups + [g], folded + [false], s)
  {
    VisibleGroups(t, u, groups, folded, s);
    FoldsHeadSnoc(groups, folded, g);
    SpliceSnoc(groups, folded, [s], g);
    FlattenAppend(Splice(groups, folded, [s]), [g]);
    FlattenAppend(groups, [g]);
    FlattenSingle(g);
    assert true in folded + [false] <==> true in folded;
  }

  lemma AfterAnswer(t: seq<Message>, u: seq<Message>, groups: seq<Group>, folded: seq<bool>, s: Message, m: Message)
    returns (next: seq<Group>)
    requires Invariant(t, u, groups, folded, s) && Allowed(t, Answer(m))
    ensures Invariant(t + [m], u + [m], next, folded, s)
  {
    AllowedAnswer(t, u, groups, folded, s, m);
    var n := |groups| - 1;
    var init, flags, last := groups[..n], folded[..n], groups[n];
    next := init + [last + [m]];
    assert groups == init + [last] && folded == flags + [false];
    AnswerLast(t, u, init, flags, last, m, s);
  }

  lemma AllowedAnswer(t: seq<Message>, u: seq<Message>, groups: seq<Group>, folded: seq<bool>, s: Message, m: Message)
    requires Invariant(t, u, groups, folded, s) && Allowed(t, Answer(m))
    ensures groups != [] && |folded| == |groups| && !folded[|folded| - 1]
    ensures var last := groups[|groups| - 1];
            IsBatch(last) && IsBatch(last + [m]) && Authored([m]) && !IsSession(m)
  {
    VisibleGroups(t, u, groups, folded, s);
  }

  lemma AnswerLast(t: seq<Message>, u: seq<Message>, init: seq<Group>, flags: seq<bool>, last: Group, m: Message, s: Message)
    requires |init| == |flags| && Invariant(t, u, init + [last], flags + [false], s)
    requires IsBatch(last) && IsBatch(last + [m]) && Authored([m]) && !IsSession(m)
    ensures Invariant(t + [m], u + [m], init + [last + [m]], flags + [false], s)
  {
    AnswerRepresents(init, flags, last, m, s);
    FlattenLast(init, last, m);
    AnswerOrderly(init, last, m);
  }

  lemma AnswerRepresents(init: seq<Group>, flags: seq<bool>, last: Group, m: Message, s: Message)
    requires |init| == |flags|
    requires Represents(Flatten(Splice(init + [last], flags + [false], [s])), init + [last], flags + [false], s)
    ensures Represents(Flatten(Splice(init + [last], flags + [false], [s])) + [m], init + [last + [m]], flags + [false], s)
  {
    FoldsHeadSnoc(init, flags, last);
    FoldsHeadSnoc(init, flags, last + [m]);
    SpliceSnoc(init, flags, [s], last);
    SpliceSnoc(init, flags, [s], last + [m]);
    FlattenLast(Splice(init, flags, [s]), last, m);
  }

  lemma AnswerOrderly(init: seq<Group>, last: Group, m: Message)
    requires Orderly(init + [last]) && IsBatch(last) && IsBatch(last + [m]) && Authored([m]) && !IsSession(m)
    ensures Orderly(init + [last + [m]])
  {
    var groups, next := init + [last], init + [last + [m]];
    assert groups[|init|] == last && last in groups;
    assert m in [m];
    assert Authored(last + [m]);
    forall i | 0 <= i < |init|
      ensures next[i] == groups[i] && IsComplete(groups[i]) && Authored(next[i])
    {
      assert groups[i] in groups;
    }
  }

  lemma FlattenLast(init: seq<Group>, last: Group, m: Message)
    ensures Flatten(init + [last + [m]]) == Flatten(init + [last]) + [m]
  {
    FlattenAppend(init, [last]);
    FlattenAppend(init, [last + [m]]);
    FlattenSingle(last);
    FlattenSingle(last + [m]);
  }

  // ---- rewriting session projections ---------------------------------------

  lemma {:induction false} MapFlatten(f: Message -> Message, groups: seq<Group>)
    ensures MapGroup(f, Flatten(groups)) == Flatten(MapGroups(f, groups))
  {
    if groups != [] {
      MapFlatten(f, groups[1..]);
      assert MapGroups(f, groups)[1..] == MapGroups(f, groups[1..]);
    }
  }

  lemma {:induction false} MapKeep(f: Message -> Message, groups: seq<Group>, drop: seq<bool>)
    requires |groups| == |drop|
    ensures MapGroups(f, KeepBy(groups, drop)) == KeepBy(MapGroups(f, groups), drop)
  {
    if groups != [] {
      MapKeep(f, groups[1..], drop[1..]);
      MapTail(f, groups);
      MapCons(f, groups[0], KeepBy(groups[1..], drop[1..]));
    }
  }

  lemma MapTail(f: Message -> Message, groups: seq<Group>)
    requires groups != []
    ensures MapGroups(f, groups)[0] == MapGroup(f, groups[0])
    ensures MapGroups(f, groups)[1..] == MapGroups(f, groups[1..])
  {
  }

  lemma MapCons(f: Message -> Message, g: Group, groups: seq<Group>)
    ensures MapGroups(f, [g] + groups) == [MapGroup(f, g)] + MapGroups(f, groups)
  {
  }

  lemma {:induction false} MapSplice(f: Message -> Message, groups: seq<Group>, drop: seq<bool>, s: Group)
    requires |groups| == |drop| && MapGroup(f, s) == s
    ensures MapGroups(f, Splice(groups, drop, s)) == Splice(MapGroups(f, groups), drop, s)
  {
    if groups != [] {
      MapTail(f, groups);
      if drop[0] {
        MapKeep(f, groups[1..], drop[1..]);
        MapCons(f, s, KeepBy(groups[1..], drop[1..]));
      } else {
        MapSplice(f, groups[1..], drop[1..], s);
        MapCons(f, groups[0], Splice(groups[1..], drop[1..], s));
      }
    }
  }

  lemma MapProtected(f: Message -> Message, g: Group)
    requires RewritesSessions(f)
    ensures ProtectedGroup(MapGroup(f, g)) <==> ProtectedGroup(g)
    ensures !ProtectedGroup(g) ==> MapGroup(f, g) == g
  {
    var r := MapGroup(f, g);
    forall i | 0 <= i < |g|
      ensures ProtectedMessage(r[i]) <==> ProtectedMessage(g[i])
      ensures !ProtectedMessage(g[i]) ==> r[i] == g[i]
    {
      if IsSession(g[i]) {
        SessionProtected(g[i]);
        SessionProtected(r[i]);
      }
    }
    if ProtectedGroup(g) {
      var m :| m in g && ProtectedMessage(m);
      var i :| 0 <= i < |g| && g[i] == m;
      assert r[i] in r;
    }
    if ProtectedGroup(r) {
      var m :| m in r && ProtectedMessage(m);
      var i :| 0 <= i < |r| && r[i] == m;
      assert g[i] in g;
    }
  }

  lemma {:induction false} MapFolds(f: Message -> Message, groups: seq<Group>, drop: seq<bool>)
    requires RewritesSessions(f) && |groups| == |drop| && FoldsTail(groups, drop)
    ensures FoldsTail(MapGroups(f, groups), drop)
    ensures DropBy(MapGroups(f, groups), drop) == DropBy(groups, drop)
  {
    if groups != [] {
      MapProtected(f, groups[0]);
      assert MapGroups(f, groups)[1..] == MapGroups(f, groups[1..]);
      MapFolds(f, groups[1..], drop[1..]);
    }
  }

  lemma MapExchange(f: Message -> Message, g: Group)
    requires RewritesSessions(f) && (IsSolo(g) || IsBatch(g)) && Authored(g)
    ensures Authored(MapGroup(f, g))
    ensures IsSolo(g) ==> IsSolo(MapGroup(f, g))
    ensures IsBatch(g) ==> MapGroup(f, g) == g
  {
    var r := MapGroup(f, g);
    forall m | m in r
      ensures !HasPrefix(m.id, SUMMARY_PREFIX)
    {
      var i :| 0 <= i < |r| && r[i] == m;
      assert g[i] in g;
      if IsSession(g[i]) {
        SessionProtected(m);
      }
    }
  }

  lemma AfterRewrite(t: seq<Message>, u: seq<Message>, groups: seq<Group>, folded: seq<bool>, s: Message, f: Message -> Message)
    requires Invariant(t, u, groups, folded, s) && RewritesSessions(f)
    ensures Invariant(MapGroup(f, t), MapGroup(f, u), MapGroups(f, groups), folded, s)
  {
    var next := MapGroups(f, groups);
    forall i | 0 <= i < |groups|
      ensures Authored(next[i]) && (IsSolo(next[i]) || IsBatch(next[i]))
      ensures IsComplete(groups[i]) ==> IsComplete(next[i])
    {
      assert groups[i] in groups;
      MapExchange(f, groups[i]);
    }
    if IsSession(s) {
      SessionProtected(s);
    }
    assert MapGroup(f, [s]) == [s];
    MapFlatten(f, groups);
    MapFlatten(f, Splice(groups, folded, [s]));
    MapSplice(f, groups, folded, [s]);
    if groups != [] {
      MapFolds(f, groups[1..], folded[1..]);
      assert next[1..] == MapGroups(f, groups[1..]);
    }
  }

  // ---- one more round ------------------------------------------------------

  lemma {:induction false} MergeLast(drop: seq<bool>, more: seq<bool>)
    requires drop != [] && |more| == |KeepBy(drop, drop)| && !drop[|drop| - 1]
    ensures more != [] && Merge(drop, more)[|drop| - 1] == more[|more| - 1]
  {
    if |drop| > 1 {
      assert drop[1..][|drop| - 2] == drop[|drop| - 1];
      var rest := if drop[0] then more else more[1..];
      MergeLast(drop[1..], rest);
      MergeTail(drop, more);
    } else {
      assert drop[1..] == [];
    }
  }

  lemma MergeTail(drop: seq<bool>, more: seq<bool>)
    requires drop != [] && |more| == |KeepBy(drop, drop)|
    ensures Merge(drop, more)[1..] == Merge(drop[1..], if drop[0] then more else more[1..])
  {
  }

  lemma {:induction false} RefoldLast(drop: seq<bool>, more: seq<bool>)
    requires true in drop && |more| == SplicedLength(drop) && !drop[|drop| - 1]
    ensures more != [] && Refold(drop, more)[|drop| - 1] == more[|more| - 1]
  {
    assert |drop| > 1;
    assert drop[1..][|drop| - 2] == drop[|drop| - 1];
    if drop[0] {
      MergeLast(drop[1..], more[1..]);
    } else {
      RefoldLast(drop[1..], more[1..]);
    }
  }

  /** A fold on top of an earlier one, after the first group: flags, order and
      facts all line up. */
  lemma FoldTailAgain(groups: seq<Group>, drop: seq<bool>, s: Message, more: seq<bool>, t: Group)
    requires |groups| == |drop| && true in drop && true in more
    requires |more| == |Splice(groups, drop, [s])| == SplicedLength(drop)
    requires FoldsTail(groups, drop) && FoldsTail(Splice(groups, drop, [s]), more)
    requires forall g :: g in groups ==> IsSolo(g) || IsBatch(g)
    requires PriorFacts(s) == Some(Facts(Flatten(DropBy(groups, drop)), map[]))
    requires !drop[|drop| - 1] && !more[|more| - 1]
    ensures FoldsTail(groups, Refold(drop, more)) && !Refold(drop, more)[|drop| - 1]
    ensures Splice(groups, Refold(drop, more), t) == Splice(Splice(groups, drop, [s]), more, t)
    ensures Facts(Flatten(DropBy(Splice(groups, drop, [s]), more)), map[])
         == Facts(Flatten(DropBy(groups, Refold(drop, more))), map[])
  {
    SummaryNotProtected(s);
    Refolded(groups, drop, [s], more, t);
    FactsAgain(groups, drop, s, DropBy(Splice(groups, drop, [s]), more), Refold(drop, more));
    RefoldLast(drop, more);
  }

  lemma FoldAgain(groups: seq<Group>, folded: seq<bool>, s: Message, floor: nat, digest: Digest)
    returns (next: seq<bool>, summary: Message)
    requires groups != [] && floor >= 1 && Orderly(groups) && Folds(groups, folded) && !folded[|folded| - 1]
    requires true in folded && PriorFacts(s) == Some(Facts(Flatten(DropBy(groups, folded)), map[]))
    requires var spliced := Splice(groups, folded, [s]);
             spliced != [] && true in DropMask(spliced, floor)
    ensures var spliced := Splice(groups, folded, [s]);
            Represents(Flatten(CompactGroups(spliced, floor, digest)), groups, next, summary)
    ensures !next[|next| - 1]
  {
    var spliced := Splice(groups, folded, [s]);
    var more := DropMask(spliced, floor);
    summary := Summary(Dropped(spliced, floor), digest);
    SummaryReadsBack(Dropped(spliced, floor), digest);
    LastKept(spliced, floor);
    DropMaskFolds(spliced, floor);
    next := FoldHeadAgain(groups, folded, s, more, summary);
  }

  /** The first group stays in front of everything a round does. */
  lemma SpliceHead(g: Group, groups: seq<Group>, drop: seq<bool>, s: Group)
    requires |groups| == |drop|
    ensures Splice([g] + groups, [false] + drop, s) == [g] + Splice(groups, drop, s)
    ensures DropBy([g] + groups, [false] + drop) == DropBy(groups, drop)
    ensures Folds([g] + groups, [false] + drop) <==> FoldsTail(groups, drop)
    ensures true in [false] + drop <==> true in drop
  {
    assert ([g] + groups)[1..] == groups && ([false] + drop)[1..] == drop;
  }

  lemma FoldHeadAgain(groups: seq<Group>, folded: seq<bool>, s: Message, more: seq<bool>, summary: Message)
    returns (next: seq<bool>)
    requires groups != [] && Orderly(groups) && Folds(groups, folded) && !folded[|folded| - 1]
    requires true in folded && PriorFacts(s) == Some(Facts(Flatten(DropBy(groups, folded)), map[]))
    requires Folds(Splice(groups, folded, [s]), more) && true in more && !more[|more| - 1]
    requires PriorFacts(summary) == Some(Facts(Flatten(DropBy(Splice(groups, folded, [s]), more)), map[]))
    ensures Represents(Flatten(Splice(Splice(groups, folded, [s]), more, [summary])), groups, next, summary)
    ensures !next[|next| - 1]
  {
    var g, rest, tail := HeadOff(groups, folded, [s]);
    var first, spliced, moreTail := HeadOff(Splice(groups, folded, [s]), more, [summary]);
    OrderlyExchanges(groups);
    assert groups[1..] == rest;
    next := TailAgain(g, rest, tail, s, spliced, moreTail, summary);
  }

  /** What a fold makes of the groups after the first. */
  lemma HeadOff(groups: seq<Group>, drop: seq<bool>, s: Group) returns (g: Group, rest: seq<Group>, tail: seq<bool>)
    requires groups != [] && Folds(groups, drop) && true in drop && !drop[|drop| - 1]
    ensures groups == [g] + rest && |rest| == |tail| && FoldsTail(rest, tail) && true in tail && !tail[|tail| - 1]
    ensures Splice(groups, drop, s) == [g] + Splice(rest, tail, s) && DropBy(groups, drop) == DropBy(rest, tail)
  {
    g, rest, tail := groups[0], groups[1..], drop[1..];
    HeadFlag(drop);
    SpliceHead(g, rest, tail, s);
    assert groups == [g] + rest;
  }

  lemma TailAgain(g: Group, rest: seq<Group>, tail: seq<bool>, s: Message, spliced: seq<Group>, more: seq<bool>, summary: Message)
    returns (next: seq<bool>)
    requires |rest| == |tail| && true in tail && true in more && FoldsTail(rest, tail) && !tail[|tail| - 1]
    requires forall x :: x in rest ==> IsSolo(x) || IsBatch(x)
    requires spliced == Splice(rest, tail, [s]) && |spliced| == |more| && FoldsTail(spliced, more) && !more[|more| - 1]
    requires PriorFacts(s) == Some(Facts(Flatten(DropBy(rest, tail)), map[]))
    requires PriorFacts(summary) == Some(Facts(Flatten(DropBy(spliced, more)), map[]))
    ensures Represents(Flatten([g] + Splice(spliced, more, [summary])), [g] + rest, next, summary) && !next[|next| - 1]
  {
    var both := BothRounds(rest, tail, s, spliced, more, summary);
    next := [false] + both;
    HeadRepresents(g, rest, both, summary);
  }

  lemma BothRounds(rest: seq<Group>, tail: seq<bool>, s: Message, spliced: seq<Group>, more: seq<bool>, summary: Message)
    returns (both: seq<bool>)
    requires |rest| == |tail| && true in tail && true in more && FoldsTail(rest, tail) && !tail[|tail| - 1]
    requires forall x :: x in rest ==> IsSolo(x) || IsBatch(x)
    requires spliced == Splice(rest, tail, [s]) && |spliced| == |more| && FoldsTail(spliced, more) && !more[|more| - 1]
    requires PriorFacts(s) == Some(Facts(Flatten(DropBy(rest, tail)), map[]))
    ensures |both| == |rest| && FoldsTail(rest, both) && !both[|both| - 1]
    ensures Splice(rest, both, [summary]) == Splice(spliced, more, [summary])
    ensures Facts(Flatten(DropBy(spliced, more)), map[]) == Facts(Flatten(DropBy(rest, both)), map[])
  {
    SpliceLength(rest, tail, [s]);
    FoldTailAgain(rest, tail, s, more, [summary]);
    both := Refold(tail, more);
  }

  lemma HeadFlag(drop: seq<bool>)
    requires drop != [] && !drop[0] && true in drop
    ensures drop == [false] + drop[1..] && true in drop[1..] && drop[1..][|drop| - 2] == drop[|drop| - 1]
  {
  }

  lemma OrderlyExchanges(groups: seq<Group>)
    requires Orderly(groups) && groups != []
    ensures forall g :: g in groups[1..] ==> IsSolo(g) || IsBatch(g)
  {
    forall g | g in groups[1..]
      ensures IsSolo(g) || IsBatch(g)
    {
      var i :| 0 <= i < |groups| - 1 && groups[1..][i] == g;
      assert groups[i + 1] == g;
    }
  }

  lemma HeadRepresents(g: Group, rest: seq<Group>, both: seq<bool>, summary: Message)
    requires |rest| == |both| && FoldsTail(rest, both)
    requires PriorFacts(summary) == Some(Facts(Flatten(DropBy(rest, both)), map[]))
    ensures Represents(Flatten([g] + Splice(rest, both, [summary])), [g] + rest, [false] + both, summary)
  {
    SpliceHead(g, rest, both, [summary]);
  }

  lemma FactsAgain(groups: seq<Group>, drop: seq<bool>, s: Message, dropped: seq<Group>, both: seq<bool>)
    requires |groups| == |drop| == |both| && DropsAfter(groups, drop, both, dropped, [s])
    requires forall g :: g in groups ==> IsSolo(g) || IsBatch(g)
    requires PriorFacts(s) == Some(Facts(Flatten(DropBy(groups, drop)), map[]))
    ensures Facts(Flatten(dropped), map[]) == Facts(Flatten(DropBy(groups, both)), map[])
  {
    var before, newer := DropBy(groups, drop), dropped[1..];
    assert dropped == [[s]] + newer;
    FlattenAppend(before, newer);
    PriorIsInlined(s, Flatten(newer));
    DropWithin(groups, both);
    ExchangesClosed(newer);
    TwoRoundsAreOne(Flatten(before), Flatten(newer));
  }

  lemma {:induction false} DropWithin<T>(s: seq<T>, drop: seq<bool>)
    requires |s| == |drop|
    ensures forall x :: x in DropBy(s, drop) ==> x in s
  {
    if s != [] {
      DropWithin(s[1..], drop[1..]);
    }
  }

  lemma FirstFold(groups: seq<Group>, floor: nat, digest: Digest)
    requires groups != [] && floor >= 1
    ensures var drop, summary := DropMask(groups, floor), Summary(Dropped(groups, floor), digest);
            Represents(Flatten(CompactGroups(groups, floor, digest)), groups, drop, summary) && !drop[|drop| - 1]
  {
    SummaryReadsBack(Dropped(groups, floor), digest);
    DropMaskFolds(groups, floor);
    LastKept(groups, floor);
  }

  lemma AfterCompact(t: seq<Message>, u: seq<Message>, groups: seq<Group>, folded: seq<bool>, s: Message, floor: nat, digest: Digest)
    returns (next: seq<bool>, summary: Message)
    requires Invariant(t, u, groups, folded, s) && floor >= 1
    ensures Invariant(Apply(t, Compact(floor, digest)), u, groups, next, summary)
  {
    VisibleGroups(t, u, groups, folded, s);
    var spliced := Groups(t);
    next, summary := folded, s;
    if |spliced| > 2 {
      var drop := DropMask(spliced, floor);
      if true !in drop {
        SpliceNone(spliced, drop, [Summary(Dropped(spliced, floor), digest)]);
      } else if true !in folded {
        SpliceNone(groups, folded, [s]);
        next, summary := drop, Summary(Dropped(groups, floor), digest);
        FirstFold(groups, floor, digest);
      } else {
        next, summary := FoldAgain(groups, folded, s, floor, digest);
      }
    }
  }

  lemma {:induction false} RunInvariant(actions: seq<Action>)
    returns (groups: seq<Group>, folded: seq<bool>, s: Message)
    requires AllAllowed(actions)
    ensures Invariant(Run(actions), RunUncompacted(actions), groups, folded, s)
  {
    if actions == [] {
      groups, folded := [], [];
      s := Message(SUMMARY_PREFIX, User, [TextBlock(SummaryJson(0, []))], Ordinary);
    } else {
      var before, a := actions[..|actions| - 1], actions[|actions| - 1];
      groups, folded, s := RunInvariant(before);
      var t, u := Run(before), RunUncompacted(before);
      match a
      case Append(g) =>
        AfterAppend(t, u, groups, folded, s, g);
        groups, folded := groups + [g], folded + [false];
      case Answer(result) =>
        groups := AfterAnswer(t, u, groups, folded, s, result);
      case Rewrite(f) =>
        AfterRewrite(t, u, groups, folded, s, f);
        groups := MapGroups(f, groups);
      case Compact(floor, digest) =>
        folded, s := AfterCompact(t, u, groups, folded, s, floor, digest);
    }
  }

  // ---- the results ---------------------------------------------------------

  /** Every run of the compacting runtime is the run that never compacted with some
      whole exchanges replaced by one summary; the summary's facts are, in order,
      the one-shot facts of everything replaced. */
  lemma RoundsEqualOneShot(actions: seq<Action>)
    requires AllAllowed(actions)
    ensures exists folded, s ::
              Represents(Run(actions), Groups(RunUncompacted(actions)), folded, s)
    ensures IsProtocol(Groups(Run(actions)))
  {
    var groups, folded, s := RunInvariant(actions);
    VisibleGroups(Run(actions), RunUncompacted(actions), groups, folded, s);
    assert Represents(Run(actions), Groups(RunUncompacted(actions)), folded, s);
  }

  function Summaries(t: seq<Message>): (summaries: seq<Message>)
  {
    if t == [] then []
    else (if HasPrefix(t[0].id, SUMMARY_PREFIX) then [t[0]] else []) + Summaries(t[1..])
  }

  lemma {:induction false} SummariesAppend(a: seq<Message>, b: seq<Message>)
    ensures Summaries(a + b) == Summaries(a) + Summaries(b)
  {
    if a == [] {
      assert a + b == b;
    } else {
      var tail := a[1..];
      SummariesAppend(tail, b);
      assert (a + b)[1..] == tail + b;
      Joined(if HasPrefix(a[0].id, SUMMARY_PREFIX) then [a[0]] else [], Summaries(tail), Summaries(b));
    }
  }

  lemma {:induction false} NoSummaries(messages: seq<Message>)
    requires forall m :: m in messages ==> !HasPrefix(m.id, SUMMARY_PREFIX)
    ensures Summaries(messages) == []
  {
    if messages != [] {
      NoSummaries(messages[1..]);
    }
  }

  lemma {:induction false} AuthoredNoSummaries(groups: seq<Group>)
    requires forall g :: g in groups ==> Authored(g)
    ensures Summaries(Flatten(groups)) == []
  {
    if groups != [] {
      AuthoredNoSummaries(groups[1..]);
      assert Authored(groups[0]);
      NoSummaries(groups[0]);
      SummariesAppend(groups[0], Flatten(groups[1..]));
    }
  }

  lemma {:induction false} KeepWithin<T>(s: seq<T>, drop: seq<bool>)
    requires |s| == |drop|
    ensures forall x :: x in KeepBy(s, drop) ==> x in s
  {
    if s != [] {
      KeepWithin(s[1..], drop[1..]);
    }
  }

  lemma {:induction false} SpliceSummaries(groups: seq<Group>, drop: seq<bool>, s: Message)
    requires |groups| == |drop| && HasPrefix(s.id, SUMMARY_PREFIX)
    requires forall g :: g in groups ==> Authored(g)
    ensures Summaries(Flatten(Splice(groups, drop, [s]))) == if true in drop then [s] else []
  {
    if groups != [] {
      var rest := groups[1..];
      if drop[0] {
        KeepWithin(rest, drop[1..]);
        AuthoredNoSummaries(KeepBy(rest, drop[1..]));
        SummariesAppend([s], Flatten(KeepBy(rest, drop[1..])));
        assert [s][1..] == [];
      } else {
        assert Authored(groups[0]);
        NoSummaries(groups[0]);
        SummariesAppend(groups[0], Flatten(Splice(rest, drop[1..], [s])));
        SpliceSummaries(rest, drop[1..], s);
        assert true in drop <==> true in drop[1..];
      }
    }
  }

  /** The summary's facts record every folded message: its role, its calls and results in
      order, and for each result the tool that its call named. */
  ghost predicate RecordsFolded(groups: seq<Group>, folded: seq<bool>, s: Message)
  {
    && |groups| == |folded| && |s.content| == 1 && s.content[0].TextBlock? && s.content[0].text.SummaryJson?
    && RecordsMessages(Flatten(DropBy(groups, folded)), s.content[0].text.facts)
  }

  lemma FoldedAreRecorded(t: seq<Message>, groups: seq<Group>, folded: seq<bool>, s: Message)
    requires Represents(t, groups, folded, s) && true in folded
    ensures RecordsFolded(groups, folded, s)
  {
    FactsRecord(Flatten(DropBy(groups, folded)));
  }

  /** However many rounds ran, at most one summary message is present, and it records, in
      order, every message ever dropped: it holds the one-shot facts of them. */
  lemma AtMostOneSummary(actions: seq<Action>)
    requires AllAllowed(actions)
    ensures |Summaries(Run(actions))| <= 1
    ensures Summaries(Run(actions)) == [] ==> Run(actions) == RunUncompacted(actions)
    ensures Summaries(Run(actions)) != [] ==>
              exists folded ::
                Represents(Run(actions), Groups(RunUncompacted(actions)), folded, Summaries(Run(actions))[0])
                && true in folded
                && RecordsFolded(Groups(RunUncompacted(actions)), folded, Summaries(Run(actions))[0])
  {
    var groups, folded, s := RunInvariant(actions);
    VisibleGroups(Run(actions), RunUncompacted(actions), groups, folded, s);
    SpliceSummaries(groups, folded, s);
    if true in folded {
      assert Represents(Run(actions), Groups(RunUncompacted(actions)), folded, Summaries(Run(actions))[0]);
      FoldedAreRecorded(Run(actions), Groups(RunUncompacted(actions)), folded, Summaries(Run(actions))[0]);
    } else {
      SpliceNone(groups, folded, [s]);
    }
  }
}
