/** What one fold does to a transcript, message by message (core/context.py, _compact
    lines 423-471). */
module FoldOutcome {
  import opened Common
  import opened Transcript
  import opened AtomicGroups
  import opened SummaryFacts
  import opened Compaction
  import opened CompactionRounds

  // ---- which messages must stay --------------------------------------------

  /** What a user or somebody on the user's behalf has said, as opposed to what was generated. */
  predicate IsUserInput(m: Message)
  {
    && m.role == User && (m.scaffolding == Ordinary || m.scaffolding == Steering || m.scaffolding == ContinuationInput)
    && !("context-summary-" <= m.id) && !("project-onboarding-context-" <= m.id)
    && !("project-memory-context-" <= m.id) && !("document-references-context-" <= m.id)
  }

  /** A projection of durable state. */
  predicate IsState(m: Message)
  {
    || "session-context-" <= m.id || "working-memory-context-" <= m.id || "execution-context-" <= m.id
    || "task-spec-context-" <= m.id || "conversation-environment-context-" <= m.id
    || "project-instructions-context-" <= m.id
  }

  lemma ProtectedIsInputOrState(m: Message)
    ensures ProtectedMessage(m) <==> IsUserInput(m) || IsState(m)
  {
    assert SUMMARY_PREFIX in GENERATED && SESSION_PREFIX in STATE;
    assert GENERATED[1] in GENERATED && GENERATED[2] in GENERATED && GENERATED[3] in GENERATED;
    assert STATE[1] in STATE && STATE[2] in STATE && STATE[3] in STATE && STATE[4] in STATE && STATE[5] in STATE;
  }

  ghost predicate MustStay(g: Group)
  {
    exists m :: m in g && (IsUserInput(m) || IsState(m))
  }

  lemma ProtectedMustStay(g: Group)
    ensures ProtectedGroup(g) <==> MustStay(g)
  {
    forall m | m in g
      ensures ProtectedMessage(m) <==> IsUserInput(m) || IsState(m)
    {
      ProtectedIsInputOrState(m);
    }
  }

  // ---- flags of groups and of messages -------------------------------------

  function Same(n: nat, flag: bool): (flags: seq<bool>)
  {
    seq(n, i => flag)
  }

  /** Every message with the flag of its group. */
  function Spread(groups: seq<Group>, drop: seq<bool>): (flags: seq<bool>)
    requires |groups| == |drop|
  {
    if groups == [] then [] else Same(|groups[0]|, drop[0]) + Spread(groups[1..], drop[1..])
  }

  lemma {:induction false} SpreadLength(groups: seq<Group>, drop: seq<bool>)
    requires |groups| == |drop|
    ensures |Spread(groups, drop)| == |Flatten(groups)|
  {
    if groups != [] {
      SpreadLength(groups[1..], drop[1..]);
    }
  }

  lemma {:induction false} SameFlag(g: Group, flag: bool)
    ensures KeepBy(g, Same(|g|, flag)) == if flag then [] else g
    ensures DropBy(g, Same(|g|, flag)) == if flag then g else []
  {
    if g != [] {
      SameFlag(g[1..], flag);
      MaskCons(g[0], g[1..], flag, Same(|g| - 1, flag));
      assert g == [g[0]] + g[1..] && Same(|g|, flag) == [flag] + Same(|g| - 1, flag);
    }
  }

  lemma {:induction false} SpreadMasks(groups: seq<Group>, drop: seq<bool>)
    requires |groups| == |drop| && |Spread(groups, drop)| == |Flatten(groups)|
    ensures KeepBy(Flatten(groups), Spread(groups, drop)) == Flatten(KeepBy(groups, drop))
    ensures DropBy(Flatten(groups), Spread(groups, drop)) == Flatten(DropBy(groups, drop))
  {
    if groups != [] {
      var g, rest, flags := groups[0], groups[1..], drop[1..];
      SpreadLength(rest, flags);
      SpreadMasks(rest, flags);
      SameFlag(g, drop[0]);
      MaskSplit(g, Flatten(rest), Same(|g|, drop[0]), Spread(rest, flags));
    }
  }

  /** `s` stands where the first flagged message of `t` stood, and no flagged message is left. */
  ghost predicate Replaces(t: seq<Message>, flags: seq<bool>, s: Message, r: seq<Message>)
  {
    |flags| == |t| && exists c: nat :: IsFirst(flags, c) && r == t[..c] + [s] + KeepBy(t[c..], flags[c..])
  }

  predicate IsFirst(flags: seq<bool>, c: nat)
  {
    c < |flags| && flags[c] && forall i :: 0 <= i < c ==> !flags[i]
  }

  lemma {:induction false} SpliceReplaces(groups: seq<Group>, drop: seq<bool>, s: Message)
    requires |groups| == |drop| && (forall g :: g in groups ==> g != []) && true in drop
    ensures Replaces(Flatten(groups), Spread(groups, drop), s, Flatten(Splice(groups, drop, [s])))
  {
    var g, rest, flags := groups[0], groups[1..], drop[1..];
    SpreadLength(groups, drop);
    if drop[0] {
      SpreadMasks(groups, drop);
      FlattenCons([s], KeepBy(rest, flags));
      assert g in groups;
      assert IsFirst(Spread(groups, drop), 0);
      var t := Flatten(groups);
      assert t[..0] + [s] + KeepBy(t[0..], Spread(groups, drop)[0..]) == [s] + Flatten(KeepBy(rest, flags)) by {
        assert t[0..] == t && Spread(groups, drop)[0..] == Spread(groups, drop) && t[..0] == [];
      }
    } else {
      assert true in flags && forall x :: x in rest ==> x in groups;
      SpliceReplaces(rest, flags, s);
      FlattenCons(g, Splice(rest, flags, [s]));
      ReplacesLater(g, Flatten(rest), Spread(rest, flags), s, Flatten(Splice(rest, flags, [s])));
    }
  }

  lemma ReplacesLater(g: Group, t: seq<Message>, flags: seq<bool>, s: Message, r: seq<Message>)
    requires Replaces(t, flags, s, r)
    ensures Replaces(g + t, Same(|g|, false) + flags, s, g + r)
  {
    var c: nat :| IsFirst(flags, c) && r == t[..c] + [s] + KeepBy(t[c..], flags[c..]);
    var all, more := g + t, Same(|g|, false) + flags;
    assert all[..|g| + c] == g + t[..c] && all[|g| + c..] == t[c..] && more[|g| + c..] == flags[c..];
    assert IsFirst(more, |g| + c);
    assert g + r == all[..|g| + c] + [s] + KeepBy(all[|g| + c..], more[|g| + c..]);
  }

  // ---- which messages go ---------------------------------------------------

  /** Message `k` of the flattened groups belongs to group `i`. */
  ghost predicate Within(groups: seq<Group>, i: nat, k: nat)
  {
    i < |groups| && |Flatten(groups[..i])| <= k < |Flatten(groups[..i + 1])|
  }

  /** Exactly the messages of old groups are flagged: neither the first group, nor one with user
      input or state, nor one with fewer than `floor` messages behind it. */
  ghost predicate FlagsOld(groups: seq<Group>, floor: nat, flags: seq<bool>)
  {
    forall i: nat, k: nat :: Within(groups, i, k) ==>
      k < |flags| && (flags[k] <==> IsOld(groups, floor, i))
  }

  ghost predicate IsOld(groups: seq<Group>, floor: nat, i: nat)
    requires i < |groups|
  {
    |groups| > 2 && i > 0 && !MustStay(groups[i]) && |Flatten(groups[i + 1..])| >= floor
  }

  lemma {:induction false} SpreadWithin(groups: seq<Group>, drop: seq<bool>, i: nat, k: nat)
    requires |groups| == |drop| && Within(groups, i, k)
    ensures k < |Spread(groups, drop)| && Spread(groups, drop)[k] == drop[i]
    ensures k < |Flatten(groups)| && Flatten(groups)[k] in groups[i]
  {
    var g, rest := groups[0], groups[1..];
    SpreadLength(rest, drop[1..]);
    if i == 0 {
      assert groups[..1] == [g];
      FlattenSingle(g);
    } else {
      assert groups[..i] == [g] + rest[..i - 1] && groups[..i + 1] == [g] + rest[..i];
      FlattenCons(g, rest[..i - 1]);
      FlattenCons(g, rest[..i]);
      SpreadWithin(rest, drop[1..], i - 1, k - |g|);
    }
  }

  lemma {:induction false} FindGroup(groups: seq<Group>, k: nat) returns (i: nat)
    requires k < |Flatten(groups)|
    ensures Within(groups, i, k)
  {
    var g, rest := groups[0], groups[1..];
    if k < |g| {
      i := 0;
      assert groups[..1] == [g] && groups[..0] == [];
      FlattenSingle(g);
    } else {
      var j := FindGroup(rest, k - |g|);
      i := j + 1;
      assert groups[..i] == [g] + rest[..j] && groups[..i + 1] == [g] + rest[..j + 1];
      FlattenCons(g, rest[..j]);
      FlattenCons(g, rest[..j + 1]);
    }
  }

  /** A round's flags for the groups are those of the old ones. */
  lemma OldIsDropped(groups: seq<Group>, floor: nat, drop: seq<bool>, i: nat)
    requires |groups| > 2 && i < |groups| == |drop| && drop == DropMask(groups, floor)
    ensures drop[i] <==> IsOld(groups, floor, i)
  {
    Retention(groups, floor, i);
    ProtectedMustStay(groups[i]);
  }

  ghost predicate DropsOld(groups: seq<Group>, floor: nat, drop: seq<bool>)
  {
    |drop| == |groups| && forall i: nat :: i < |groups| ==> (drop[i] <==> IsOld(groups, floor, i))
  }

  lemma OldMask(groups: seq<Group>, floor: nat) returns (drop: seq<bool>)
    requires |groups| > 2
    ensures drop == DropMask(groups, floor) && |drop| == |groups|
  {
    drop := DropMask(groups, floor);
  }

  lemma MaskDropsOld(groups: seq<Group>, floor: nat, drop: seq<bool>)
    requires |groups| > 2 && |drop| == |groups| && drop == DropMask(groups, floor)
    ensures DropsOld(groups, floor, drop)
  {
    forall i: nat | i < |groups|
      ensures drop[i] <==> IsOld(groups, floor, i)
    {
      OldIsDropped(groups, floor, drop, i);
    }
  }

  lemma MaskFlagsOld(groups: seq<Group>, floor: nat, drop: seq<bool>)
    requires DropsOld(groups, floor, drop)
    ensures FlagsOld(groups, floor, Spread(groups, drop))
  {
    forall i: nat, k: nat | Within(groups, i, k)
      ensures k < |Spread(groups, drop)| && (Spread(groups, drop)[k] <==> IsOld(groups, floor, i))
    {
      SpreadWithin(groups, drop, i, k);
    }
  }

  /** What a fold did: nothing, or one message that records the flagged ones in their place. */
  ghost predicate IsFold(t: seq<Message>, flags: seq<bool>, s: Message, r: seq<Message>)
  {
    && |flags| == |t|
    && (true !in flags ==> r == t)
    && (true in flags ==> Replaces(t, flags, s, r) && IsRecord(s, DropBy(t, flags)))
  }

  lemma MaskedGroups(groups: seq<Group>, drop: seq<bool>, digest: Digest) returns (flags: seq<bool>, s: Message)
    requires |groups| == |drop| && forall g :: g in groups ==> g != []
    ensures flags == Spread(groups, drop) && s == Summary(Flatten(DropBy(groups, drop)), digest)
    ensures IsFold(Flatten(groups), flags, s, Flatten(Splice(groups, drop, [s])))
  {
    flags, s := Spread(groups, drop), Summary(Flatten(DropBy(groups, drop)), digest);
    SpreadLength(groups, drop);
    SpreadMasks(groups, drop);
    SummaryRecords(Flatten(DropBy(groups, drop)), digest);
    if true in drop {
      SpliceReplaces(groups, drop, s);
    } else {
      SpliceNone(groups, drop, [s]);
      NoneSpread(groups, drop);
    }
  }

  lemma {:induction false} NoneSpread(groups: seq<Group>, drop: seq<bool>)
    requires |groups| == |drop| && true !in drop
    ensures true !in Spread(groups, drop)
  {
    if groups != [] {
      assert !drop[0] && true !in drop[1..];
      NoneSpread(groups[1..], drop[1..]);
    }
  }

  /** One fold, whatever the transcript: exactly the messages of old exchanges go, and one message
      that records all of them takes the place of the first. */
  lemma FoldIsExact(t: seq<Message>, floor: nat, digest: Digest)
    returns (groups: seq<Group>, flags: seq<bool>, s: Message)
    ensures AreExchanges(t, groups) && FlagsOld(groups, floor, flags)
    ensures IsFold(t, flags, s, Apply(t, Compact(floor, digest)))
  {
    groups := Groups(t);
    GroupsAreExchanges(t);
    if |groups| <= 2 {
      flags, s := Same(|t|, false), Summary([], digest);
      forall i: nat, k: nat | Within(groups, i, k)
        ensures k < |flags|
      {
        SpreadWithin(groups, Same(|groups|, false), i, k);
      }
    } else {
      var drop := OldMask(groups, floor);
      MaskDropsOld(groups, floor, drop);
      MaskFlagsOld(groups, floor, drop);
      flags, s := MaskedGroups(groups, drop, digest);
    }
  }

  /** So the first message, all user input, all state and the newest `floor` messages stay. */
  lemma NewestAndInputStay(t: seq<Message>, floor: nat, groups: seq<Group>, flags: seq<bool>, k: nat)
    requires AreExchanges(t, groups) && FlagsOld(groups, floor, flags) && k < |flags| == |t| && flags[k]
    ensures 0 < k && k + floor < |t| && !IsUserInput(t[k]) && !IsState(t[k])
  {
    var i := FindGroup(groups, k);
    SpreadWithin(groups, Same(|groups|, false), i, k);
    FlattenAppend(groups[..i + 1], groups[i + 1..]);
    assert groups == groups[..i + 1] + groups[i + 1..];
    assert groups[..i] == [groups[0]] + groups[1..i];
    FlattenCons(groups[0], groups[1..i]);
    assert IsExchange(groups[0]);
  }
}
