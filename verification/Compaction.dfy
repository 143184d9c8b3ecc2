/** Folding old exchanges into one summary (core/context.py, _compact lines 423-471). */
module Compaction {
  import opened Common
  import opened Transcript
  import opened AtomicGroups
  import opened SummaryFacts

  // ---- protected messages --------------------------------------------------

  predicate AnyPrefix(id: string, prefixes: seq<string>)
  {
    exists p :: p in prefixes && HasPrefix(id, p)
  }

  const GENERATED: seq<string> :=
    [SUMMARY_PREFIX, "project-onboarding-context-", "project-memory-context-", "document-references-context-"]

  const STATE: seq<string> :=
    [SESSION_PREFIX, "working-memory-context-", "execution-context-", "task-spec-context-",
     "conversation-environment-context-", "project-instructions-context-"]

  predicate ProtectedMessage(m: Message)
  {
    (m.role == User && m.scaffolding != OtherScaffolding && !AnyPrefix(m.id, GENERATED))
    || AnyPrefix(m.id, STATE)
  }

  predicate ProtectedGroup(g: Group)
  {
    exists m :: m in g && ProtectedMessage(m)
  }

  /** A summary is never protected, so the next round can fold it again. */
  lemma SummaryNotProtected(m: Message)
    requires HasPrefix(m.id, SUMMARY_PREFIX)
    ensures !ProtectedMessage(m) && !ProtectedGroup([m])
  {
    assert SUMMARY_PREFIX in GENERATED;
    forall p | p in STATE
      ensures !HasPrefix(m.id, p)
    {
      assert |p| > 3 && (p[0] != 'c' || p[3] != 't');
      assert m.id[0] == 'c' && m.id[3] == 't';
    }
  }

  lemma SessionProtected(m: Message)
    requires HasPrefix(m.id, SESSION_PREFIX)
    ensures ProtectedMessage(m) && !HasPrefix(m.id, SUMMARY_PREFIX)
  {
    assert SESSION_PREFIX in STATE;
    assert m.id[0] == 's';
  }

  // ---- the recent suffix ---------------------------------------------------

  /** The shortest suffix of whole groups reaching `floor` messages without group
      0, or every later group. */
  ghost predicate IsRecentStart(groups: seq<Group>, floor: nat, start: nat)
  {
    && 1 <= start <= |groups|
    && (start == 1 || Reaches(groups, floor, start))
    && (forall t :: start < t <= |groups| ==> !Reaches(groups, floor, t))
  }

  function RecentStart(groups: seq<Group>, floor: nat): (start: nat)
    requires groups != []
    ensures IsRecentStart(groups, floor, start)
  {
    RecentFrom(groups, floor, |groups|)
  }

  predicate Reaches(groups: seq<Group>, floor: nat, start: nat)
    requires start <= |groups|
  {
    |Flatten(groups[start..])| >= floor
  }

  function RecentFrom(groups: seq<Group>, floor: nat, start: nat): (r: nat)
    requires 1 <= start <= |groups|
    requires forall t :: start < t <= |groups| ==> !Reaches(groups, floor, t)
    ensures IsRecentStart(groups, floor, r)
  {
    if start == 1 || Reaches(groups, floor, start) then start
    else RecentFrom(groups, floor, start - 1)
  }

  /** Which groups one round drops. */
  function DropMask(groups: seq<Group>, floor: nat): (drop: seq<bool>)
    requires groups != []
    ensures |drop| == |groups|
  {
    var start := RecentStart(groups, floor);
    seq(|groups|, i requires 0 <= i < |groups| => 0 < i < start && !ProtectedGroup(groups[i]))
  }

  /** The groups with every dropped one removed and `s` at the first of them. */
  function Splice(groups: seq<Group>, drop: seq<bool>, s: Group): (spliced: seq<Group>)
    requires |groups| == |drop|
  {
    if groups == [] then []
    else if drop[0] then [s] + KeepBy(groups[1..], drop[1..])
    else [groups[0]] + Splice(groups[1..], drop[1..], s)
  }

  function Dropped(groups: seq<Group>, floor: nat): (messages: seq<Message>)
    requires groups != []
  {
    Flatten(DropBy(groups, DropMask(groups, floor)))
  }

  function CompactGroups(groups: seq<Group>, floor: nat, digest: Digest): (r: seq<Group>)
    requires groups != []
  {
    Splice(groups, DropMask(groups, floor), [Summary(Dropped(groups, floor), digest)])
  }

  // ---- the loops -----------------------------------------------------------

  method RecentIndexes(groups: seq<Group>, floor: nat) returns (recent: set<nat>)
    requires groups != []
    ensures forall i: nat :: i in recent <==> RecentStart(groups, floor) <= i < |groups|
  {
    recent := {};
    var count := 0;
    var index := |groups|;
    while index > 1 && count < floor
      invariant 1 <= index <= |groups|
      invariant count == |Flatten(groups[index..])|
      invariant forall i: nat :: i in recent <==> index <= i < |groups|
      invariant forall t :: index < t <= |groups| ==> !Reaches(groups, floor, t)
    {
      index := index - 1;
      assert groups[index..][1..] == groups[index + 1..];
      recent := recent + {index};
      count := count + |groups[index]|;
    }
    RecentStartUnique(groups, floor, index, RecentStart(groups, floor));
  }

  lemma RecentStartUnique(groups: seq<Group>, floor: nat, s1: nat, s2: nat)
    requires groups != [] && IsRecentStart(groups, floor, s1) && IsRecentStart(groups, floor, s2)
    ensures s1 == s2
  {
  }

  /** Lines 431-450: the groups to fold and their messages. */
  method ChooseCandidates(groups: seq<Group>, floor: nat) returns (candidates: set<nat>, compacted: seq<Message>)
    requires groups != []
    ensures forall k: nat :: k in candidates <==> k < |groups| && DropMask(groups, floor)[k]
    ensures compacted == Dropped(groups, floor)
  {
    var recent := RecentIndexes(groups, floor);
    ghost var drop := DropMask(groups, floor);
    candidates, compacted := {}, [];
    assert groups[0..] == groups && drop[0..] == drop;
    for i := 0 to |groups|
      invariant forall k: nat :: k in candidates <==> k < i && drop[k]
      invariant Dropped(groups, floor) == compacted + Flatten(DropBy(groups[i..], drop[i..]))
    {
      assert groups[i..][1..] == groups[i + 1..] && drop[i..][1..] == drop[i + 1..];
      if i != 0 && !ProtectedGroup(groups[i]) && i !in recent {
        candidates := candidates + {i};
        compacted := compacted + groups[i];
      }
    }
  }

  /** Lines 455-466: one summary at the first candidate, everything else in order. */
  method Rebuild(groups: seq<Group>, candidates: set<nat>, ghost drop: seq<bool>, summary: Message)
    returns (preserved: seq<Message>)
    requires |groups| == |drop|
    requires forall k: nat :: k in candidates <==> k < |groups| && drop[k]
    ensures preserved == Flatten(Splice(groups, drop, [summary]))
  {
    preserved := [];
    var inserted := false;
    assert groups[0..] == groups && drop[0..] == drop;
    for i := 0 to |groups|
      invariant Flatten(Splice(groups, drop, [summary]))
                == preserved + Remaining(groups[i..], drop[i..], [summary], inserted)
    {
      RemainingStep(groups, drop, [summary], inserted, i);
      Regrouped(preserved, if !drop[i] then groups[i] else if inserted then [] else [summary],
                Remaining(groups[i + 1..], drop[i + 1..], [summary], inserted || drop[i]));
      if i in candidates {
        if !inserted {
          preserved := preserved + [summary];
          inserted := true;
        }
      } else {
        preserved := preserved + groups[i];
      }
    }
  }

  /** What the rebuilding loop still has to append. */
  function Remaining(groups: seq<Group>, drop: seq<bool>, s: Group, inserted: bool): (messages: seq<Message>)
    requires |groups| == |drop|
  {
    Flatten(if inserted then KeepBy(groups, drop) else Splice(groups, drop, s))
  }

  lemma RemainingStep(groups: seq<Group>, drop: seq<bool>, s: Group, inserted: bool, i: nat)
    requires i < |groups| == |drop|
    ensures Remaining(groups[i..], drop[i..], s, inserted) ==
      (if !drop[i] then groups[i] else if inserted then [] else s)
      + Remaining(groups[i + 1..], drop[i + 1..], s, inserted || drop[i])
  {
    assert groups[i..][1..] == groups[i + 1..] && drop[i..][1..] == drop[i + 1..];
  }

  lemma Regrouped<T>(a: seq<T>, b: seq<T>, c: seq<T>)
    ensures a + (b + c) == (a + b) + c
  {
  }

  method CompactExchanges(groups: seq<Group>, floor: nat, digest: Digest)
    returns (preserved: seq<Message>, compacted: seq<Message>)
    requires groups != []
    ensures compacted == Dropped(groups, floor)
    ensures preserved == Flatten(CompactGroups(groups, floor, digest))
  {
    var candidates;
    candidates, compacted := ChooseCandidates(groups, floor);
    var summary := SummaryMessage(compacted, digest);
    preserved := Rebuild(groups, candidates, DropMask(groups, floor), summary);
  }

  // ---- retention -----------------------------------------------------------

  /** What one round keeps: group 0, every protected group and the shortest recent
      suffix reaching the floor; every other group goes, and no message is lost. */
  lemma Retention(groups: seq<Group>, floor: nat, i: nat)
    requires i < |groups|
    ensures DropMask(groups, floor)[i] <==>
            i != 0 && !ProtectedGroup(groups[i]) && |Flatten(groups[i + 1..])| >= floor
    ensures |Flatten(KeepBy(groups, DropMask(groups, floor)))| + |Dropped(groups, floor)| == |Flatten(groups)|
  {
    var start := RecentStart(groups, floor);
    assert i + 1 > start ==> !Reaches(groups, floor, i + 1);
    assert start == 1 || Reaches(groups, floor, start);
    if i + 1 <= start {
      FlattenSuffix(groups, i + 1, start);
    }
    FlattenConserves(groups, DropMask(groups, floor));
  }

  lemma {:induction false} FlattenSuffix(groups: seq<Group>, i: nat, j: nat)
    requires i <= j <= |groups|
    ensures |Flatten(groups[i..])| >= |Flatten(groups[j..])|
    decreases j - i
  {
    if i < j {
      FlattenSuffix(groups, i + 1, j);
      assert groups[i..][1..] == groups[i + 1..];
    }
  }

  lemma {:induction false} FlattenConserves(groups: seq<Group>, drop: seq<bool>)
    requires |groups| == |drop|
    ensures |Flatten(KeepBy(groups, drop))| + |Flatten(DropBy(groups, drop))| == |Flatten(groups)|
    ensures multiset(Flatten(KeepBy(groups, drop))) + multiset(Flatten(DropBy(groups, drop))) == multiset(Flatten(groups))
  {
    if groups != [] {
      FlattenConserves(groups[1..], drop[1..]);
    }
  }
}
