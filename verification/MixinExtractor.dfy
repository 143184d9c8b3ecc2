/** Moving methods, and the module-level symbols only they use, out of a module
    (scripts/extract_kernel_mixin.py). A source file is its lines, each with the names
    it mentions as whole words; a definition is its line span and the bare names it
    evaluates. */
module MixinExtractor {
  import opened Common
  import opened LineDeletion

  datatype Line = Line(text: string, comment: bool, mentions: set<string>)

  datatype Node = Node(decorators: seq<nat>, line: nat, endLine: nat, loads: set<string>)

  datatype Source = Source(lines: seq<Line>, nodes: map<string, Node>, selected: seq<Node>)

  // ---- spans ---------------------------------------------------------------

  function Least(first: nat, others: seq<nat>): (least: nat)
    ensures least <= first && forall i :: 0 <= i < |others| ==> least <= others[i]
    ensures least == first || least in others
  {
    if others == [] then first
    else
      var rest := Least(first, others[1..]);
      if others[0] < rest then others[0] else rest
  }

  function SpanOf(node: Node): (s: Span)
    ensures s.first <= node.line && forall i :: 0 <= i < |node.decorators| ==> s.first <= node.decorators[i]
    ensures (s.first == node.line || s.first in node.decorators) && s.last == node.endLine
  {
    Span(Least(node.line, node.decorators), node.endLine)
  }

  function NodeSpan(src: Source, name: string): (s: Span)
  {
    if name in src.nodes then SpanOf(src.nodes[name]) else Span(1, 0)
  }

  // ---- who may travel ------------------------------------------------------

  /** A name evaluated by a selected method or by a symbol that travels. */
  predicate Needed(src: Source, moved: set<string>, name: string)
  {
    || (exists i :: 0 <= i < |src.selected| && name in src.selected[i].loads)
    || (exists m :: m in moved && m in src.nodes && name in src.nodes[m].loads)
  }

  predicate InSelection(src: Source, number: nat)
  {
    exists i :: 0 <= i < |src.selected| && In(number, SpanOf(src.selected[i]))
  }

  predicate InMoved(src: Source, moved: set<string>, number: nat)
  {
    exists m :: m in moved && In(number, NodeSpan(src, m))
  }

  /** Line `number` uses `name` from outside its definition and everything that travels. */
  predicate UsedAt(src: Source, moved: set<string>, name: string, number: nat)
  {
    && 1 <= number <= |src.lines|
    && !In(number, NodeSpan(src, name)) && !InSelection(src, number) && !InMoved(src, moved, number)
    && !src.lines[number - 1].comment && name in src.lines[number - 1].mentions
  }

  predicate HasOutsideReference(src: Source, moved: set<string>, name: string)
  {
    exists number :: 1 <= number <= |src.lines| && UsedAt(src, moved, name, number)
  }

  /** The definition, from its first decorator on, holds line `number`. */
  predicate HoldsLine(node: Node, number: nat)
  {
    (node.line <= number || exists i :: 0 <= i < |node.decorators| && node.decorators[i] <= number)
    && number <= node.endLine
  }

  /** Line `i` mentions `name`, is no comment, and belongs neither to the definition of `name`
      nor to a selected method nor to a symbol that travels. */
  ghost predicate UsesOutside(src: Source, moved: set<string>, name: string, i: nat)
  {
    && i < |src.lines| && name in src.lines[i].mentions && !src.lines[i].comment
    && !(name in src.nodes && HoldsLine(src.nodes[name], i + 1))
    && (forall k :: 0 <= k < |src.selected| ==> !HoldsLine(src.selected[k], i + 1))
    && (forall m :: m in moved && m in src.nodes ==> !HoldsLine(src.nodes[m], i + 1))
  }

  lemma SpanHoldsLine(node: Node, number: nat)
    ensures In(number, SpanOf(node)) <==> HoldsLine(node, number)
  {
    var s := SpanOf(node);
    if s.first in node.decorators {
      var i :| 0 <= i < |node.decorators| && node.decorators[i] == s.first;
    }
  }

  lemma NodeHoldsLine(src: Source, name: string, number: nat)
    ensures In(number, NodeSpan(src, name)) <==> name in src.nodes && HoldsLine(src.nodes[name], number)
  {
    if name in src.nodes {
      SpanHoldsLine(src.nodes[name], number);
    }
  }

  lemma UsedIsUsed(src: Source, moved: set<string>, name: string, i: nat)
    requires i < |src.lines|
    ensures UsedAt(src, moved, name, i + 1) <==> UsesOutside(src, moved, name, i)
  {
    NodeHoldsLine(src, name, i + 1);
    forall k | 0 <= k < |src.selected|
      ensures In(i + 1, SpanOf(src.selected[k])) <==> HoldsLine(src.selected[k], i + 1)
    {
      SpanHoldsLine(src.selected[k], i + 1);
    }
    forall m | m in moved
      ensures In(i + 1, NodeSpan(src, m)) <==> m in src.nodes && HoldsLine(src.nodes[m], i + 1)
    {
      NodeHoldsLine(src, m, i + 1);
    }
  }

  /** A symbol is used outside exactly if some line uses it there; comments do not count. */
  lemma OutsideIsOutside(src: Source, moved: set<string>, name: string)
    ensures HasOutsideReference(src, moved, name) <==> exists i: nat :: UsesOutside(src, moved, name, i)
  {
    if HasOutsideReference(src, moved, name) {
      var number :| 1 <= number <= |src.lines| && UsedAt(src, moved, name, number);
      UsedIsUsed(src, moved, name, number - 1);
    }
    if i: nat :| UsesOutside(src, moved, name, i) {
      UsedIsUsed(src, moved, name, i);
      assert UsedAt(src, moved, name, i + 1);
    }
  }

  predicate EnclosesSelection(src: Source, name: string)
  {
    exists i :: 0 <= i < |src.selected| && Contains(NodeSpan(src, name), SpanOf(src.selected[i]))
  }

  predicate EnclosesMoved(src: Source, moved: set<string>, name: string)
  {
    exists m :: m in moved && Contains(NodeSpan(src, name), NodeSpan(src, m))
  }

  /** The condition under which a round adds `name`. */
  predicate Movable(src: Source, moved: set<string>, name: string)
  {
    && Needed(src, moved, name) && name in src.nodes && name !in moved
    && !EnclosesSelection(src, name) && !EnclosesMoved(src, moved, name)
    && !HasOutsideReference(src, moved, name)
  }

  // ---- the least set -------------------------------------------------------

  /** A symbol with no reason to stay, given that `moved` travels. */
  ghost predicate Free(src: Source, moved: set<string>, name: string)
  {
    && Needed(src, moved, name) && name in src.nodes
    && !EnclosesSelection(src, name) && !HasOutsideReference(src, moved, name)
  }

  ghost predicate ClosedUnder(src: Source, moved: set<string>)
  {
    forall name :: name in src.nodes && Free(src, moved, name) ==> name in moved
  }

  ghost predicate IsLeast(src: Source, moved: set<string>)
  {
    ClosedUnder(src, moved) && forall other: set<string> :: ClosedUnder(src, other) ==> moved <= other
  }

  /** No definition contains another, as when every definition has lines of its own. */
  ghost predicate NoNesting(src: Source)
  {
    forall a, b :: a in src.nodes && b in src.nodes && a != b ==> !Contains(NodeSpan(src, a), NodeSpan(src, b))
  }

  /** The more travels, the fewer reasons there are to stay. */
  lemma FreeIsMonotone(src: Source, moved: set<string>, more: set<string>, name: string)
    requires moved <= more && Free(src, moved, name)
    ensures Free(src, more, name)
  {
    OutsideIsAntitone(src, moved, more, name);
  }

  lemma OutsideIsAntitone(src: Source, moved: set<string>, more: set<string>, name: string)
    requires moved <= more && !HasOutsideReference(src, moved, name)
    ensures !HasOutsideReference(src, more, name)
  {
    forall number | 1 <= number <= |src.lines|
      ensures !UsedAt(src, more, name, number)
    {
      assert !UsedAt(src, moved, name, number);
    }
  }

  /** A movable symbol is in every closed set that holds what already travels. */
  lemma StaysBelow(src: Source, moved: set<string>, name: string)
    requires Movable(src, moved, name)
    ensures forall other: set<string> :: ClosedUnder(src, other) && moved <= other ==> name in other
  {
    forall other: set<string> | ClosedUnder(src, other) && moved <= other
      ensures name in other
    {
      FreeIsMonotone(src, moved, other, name);
    }
  }

  ghost predicate BelowClosed(src: Source, moved: set<string>)
  {
    forall other: set<string> :: ClosedUnder(src, other) ==> moved <= other
  }

  lemma AddBelow(src: Source, moved: set<string>, added: set<string>)
    requires BelowClosed(src, moved) && forall name :: name in added ==> Movable(src, moved, name)
    ensures BelowClosed(src, moved + added)
  {
    forall other: set<string> | ClosedUnder(src, other)
      ensures moved + added <= other
    {
      forall name | name in added
        ensures name in other
      {
        StaysBelow(src, moved, name);
      }
    }
  }

  ghost predicate NothingMovable(src: Source, moved: set<string>)
  {
    forall name :: name in src.nodes ==> !Movable(src, moved, name)
  }

  lemma LeastIsUnique(src: Source, a: set<string>, b: set<string>)
    requires IsLeast(src, a) && IsLeast(src, b)
    ensures a == b
  {
  }

  // ---- the fixpoint --------------------------------------------------------

  function SetOf(names: seq<string>): (all: set<string>)
  {
    set n | n in names
  }

  /** Every use of a moved symbol travels with it, and no moved symbol is a container. */
  ghost predicate Settled(src: Source, moved: set<string>)
  {
    forall name :: name in moved ==>
      name in src.nodes && !EnclosesSelection(src, name) && !HasOutsideReference(src, moved, name)
  }

  lemma AddSettled(src: Source, moved: set<string>, added: set<string>)
    requires Settled(src, moved) && forall name :: name in added ==> Movable(src, moved, name)
    ensures Settled(src, moved + added)
  {
    forall name | name in moved + added
      ensures !HasOutsideReference(src, moved + added, name)
    {
      OutsideIsAntitone(src, moved, moved + added, name);
    }
  }

  // ---- exactly when the rounds find the least set --------------------------

  /** The first `k` rounds. */
  function Rounds(src: Source, k: nat): (moved: set<string>)
  {
    if k == 0 then {}
    else Rounds(src, k - 1) + set name | name in src.nodes && Movable(src, Rounds(src, k - 1), name)
  }

  /** The same rounds if containing a traveller were no reason to stay. */
  ghost function Freed(src: Source, k: nat): (freed: set<string>)
  {
    if k == 0 then {}
    else Freed(src, k - 1) + set name | name in src.nodes && Free(src, Freed(src, k - 1), name)
  }

  /** In round `k` a definition becomes free that contains one freed before. */
  ghost predicate ContainerIsLate(src: Source, k: nat, name: string)
  {
    && name in src.nodes && name !in Freed(src, k) && Free(src, Freed(src, k), name)
    && EnclosesMoved(src, Freed(src, k), name)
  }

  ghost predicate NoneLate(src: Source, k: nat)
  {
    forall name: string :: !ContainerIsLate(src, k, name)
  }

  ghost predicate ContainersFirst(src: Source)
  {
    forall k: nat :: NoneLate(src, k)
  }

  lemma {:induction false} FreedBelowClosed(src: Source, k: nat)
    ensures BelowClosed(src, Freed(src, k))
  {
    if k > 0 {
      FreedBelowClosed(src, k - 1);
      forall other: set<string> | ClosedUnder(src, other)
        ensures Freed(src, k) <= other
      {
        forall name | name in src.nodes && Free(src, Freed(src, k - 1), name)
          ensures name in other
        {
          FreeIsMonotone(src, Freed(src, k - 1), other, name);
        }
      }
    }
  }

  /** Where no container is late, a round adds exactly what becomes free. */
  lemma SameRound(src: Source, k: nat)
    requires Rounds(src, k) == Freed(src, k) && NoneLate(src, k)
    ensures Rounds(src, k + 1) == Freed(src, k + 1)
  {
    forall name | name in src.nodes && name !in Freed(src, k)
      ensures Movable(src, Freed(src, k), name) <==> Free(src, Freed(src, k), name)
    {
      assert !ContainerIsLate(src, k, name);
    }
  }

  /** What contains a traveller never travels. */
  lemma {:induction false} NeverLater(src: Source, k: nat, j: nat, name: string)
    requires k <= j && name !in Rounds(src, k) && EnclosesMoved(src, Rounds(src, k), name)
    ensures name !in Rounds(src, j) && Rounds(src, k) <= Rounds(src, j)
  {
    if k < j {
      NeverLater(src, k, j - 1, name);
    }
  }

  lemma {:induction false} RoundsStop(src: Source, k: nat, j: nat)
    requires k <= j && NothingMovable(src, Rounds(src, k))
    ensures Rounds(src, j) == Rounds(src, k)
  {
    if k < j {
      RoundsStop(src, k, j - 1);
    }
  }

  /** If the rounds end in the least set, they were the unrestricted ones all along. */
  lemma {:induction false} LeastMeansFreed(src: Source, last: nat, k: nat)
    requires NothingMovable(src, Rounds(src, last)) && IsLeast(src, Rounds(src, last))
    ensures InStep(src, k)
  {
    if k == 0 {
      LeastStarts(src, last);
    } else {
      LeastMeansFreed(src, last, k - 1);
      LeastGoesOn(src, last, k - 1);
    }
  }

  /** After `k` rounds all that is free has been added, and no container is late. */
  ghost predicate InStep(src: Source, k: nat)
  {
    Rounds(src, k) == Freed(src, k) && NoneLate(src, k)
  }

  lemma LeastStarts(src: Source, last: nat)
    requires NothingMovable(src, Rounds(src, last)) && IsLeast(src, Rounds(src, last))
    ensures InStep(src, 0)
  {
    LeastHasNoneLate(src, last, 0);
  }

  lemma LeastGoesOn(src: Source, last: nat, k: nat)
    requires NothingMovable(src, Rounds(src, last)) && IsLeast(src, Rounds(src, last))
    requires InStep(src, k)
    ensures InStep(src, k + 1)
  {
    SameRound(src, k);
    LeastHasNoneLate(src, last, k + 1);
  }

  lemma LeastHasNoneLate(src: Source, last: nat, k: nat)
    requires NothingMovable(src, Rounds(src, last)) && IsLeast(src, Rounds(src, last)) && Rounds(src, k) == Freed(src, k)
    ensures NoneLate(src, k)
  {
    forall name: string
      ensures !ContainerIsLate(src, k, name)
    {
      if ContainerIsLate(src, k, name) {
        LateIsLeftOut(src, last, k, name);
      }
    }
  }

  lemma LateIsLeftOut(src: Source, last: nat, k: nat, name: string)
    requires NothingMovable(src, Rounds(src, last)) && Rounds(src, k) == Freed(src, k)
    requires ContainerIsLate(src, k, name)
    ensures !IsLeast(src, Rounds(src, last))
  {
    if IsLeast(src, Rounds(src, last)) {
      FreedBelowClosed(src, k);
      FreeIsMonotone(src, Freed(src, k), Rounds(src, last), name);
      if k <= last {
        NeverLater(src, k, last, name);
      } else {
        RoundsStop(src, last, k);
      }
    }
  }

  lemma {:induction false} SameRounds(src: Source, k: nat)
    requires ContainersFirst(src)
    ensures Rounds(src, k) == Freed(src, k)
  {
    if k > 0 {
      SameRounds(src, k - 1);
      assert NoneLate(src, k - 1);
      SameRound(src, k - 1);
    }
  }

  /** The rounds end in the least set that leaves nothing free behind if and only if no
      definition becomes free in a later round than one it contains. */
  lemma RoundsAreExact(src: Source, last: nat)
    requires NothingMovable(src, Rounds(src, last))
    ensures IsLeast(src, Rounds(src, last)) <==> ContainersFirst(src)
  {
    if IsLeast(src, Rounds(src, last)) {
      forall k: nat
        ensures NoneLate(src, k)
      {
        LeastMeansFreed(src, last, k);
      }
    }
    if ContainersFirst(src) {
      SameRounds(src, last);
      FreedBelowClosed(src, last);
      forall name | name in src.nodes && Free(src, Freed(src, last), name)
        ensures name in Freed(src, last)
      {
        assert NoneLate(src, last) && !ContainerIsLate(src, last, name) && !Movable(src, Rounds(src, last), name);
      }
    }
  }

  lemma NestingFreeIsFirst(src: Source)
    requires NoNesting(src)
    ensures ContainersFirst(src)
  {
    forall k: nat
      ensures NoneLate(src, k)
    {
      FreedAreNodes(src, k);
    }
  }

  lemma {:induction false} FreedAreNodes(src: Source, k: nat)
    ensures Freed(src, k) <= src.nodes.Keys
  {
    if k > 0 {
      FreedAreNodes(src, k - 1);
    }
  }

  ghost predicate NoRepeats(names: seq<string>)
  {
    forall i, j :: 0 <= i < j < |names| ==> names[i] != names[j]
  }

  /** One round: everything that is movable now, in any order. */
  method Round(src: Source, moved: seq<string>, added: set<string>) returns (more: seq<string>)
    requires NoRepeats(moved) && forall name :: name in added ==> name !in moved
    ensures NoRepeats(more) && SetOf(more) == SetOf(moved) + added
    ensures moved <= more
  {
    more := moved;
    var left := added;
    while left != {}
      invariant left <= added && NoRepeats(more) && moved <= more
      invariant SetOf(more) == SetOf(moved) + (added - left)
      decreases left
    {
      var name :| name in left;
      assert name !in SetOf(more);
      more := more + [name];
      left := left - {name};
    }
  }

  /** The symbols that travel, in the order they were added, and the needed ones that
      must stay. */
  method ChooseMoved(src: Source) returns (moved: seq<string>, stuck: set<string>)
    ensures NoRepeats(moved) && Settled(src, SetOf(moved)) && NothingMovable(src, SetOf(moved))
    ensures stuck == set name | name in src.nodes && name !in moved && Needed(src, SetOf(moved), name)
    ensures exists rounds: nat :: SetOf(moved) == Rounds(src, rounds)
    ensures IsLeast(src, SetOf(moved)) <==> ContainersFirst(src)
    // in terms of the lines alone
    ensures forall name, i: nat :: name in moved ==> !UsesOutside(src, SetOf(moved), name, i)
  {
    moved := [];
    ghost var rounds := 0;
    while true
      invariant NoRepeats(moved) && Settled(src, SetOf(moved)) && SetOf(moved) == Rounds(src, rounds)
      decreases src.nodes.Keys - SetOf(moved)
    {
      var added := set name | name in src.nodes && Movable(src, SetOf(moved), name);
      if added == {} {
        forall name | name in src.nodes
          ensures !Movable(src, SetOf(moved), name)
        {
          assert name !in added;
        }
        break;
      }
      AddSettled(src, SetOf(moved), added);
      ghost var some :| some in added;
      assert some in src.nodes.Keys - SetOf(moved);
      moved := Round(src, moved, added);
      rounds := rounds + 1;
    }
    stuck := set name | name in src.nodes && name !in moved && Needed(src, SetOf(moved), name);
    RoundsAreExact(src, rounds);
    forall name, i: nat | name in moved
      ensures !UsesOutside(src, SetOf(moved), name, i)
    {
      assert name in SetOf(moved);
      OutsideIsOutside(src, SetOf(moved), name);
    }
  }

  /** A needed symbol that is left behind has a reason: it contains something that
      travels, or a line outside uses it. */
  lemma StuckHasReason(src: Source, moved: set<string>, name: string)
    requires NothingMovable(src, moved)
    requires name in src.nodes && name !in moved && Needed(src, moved, name)
    ensures EnclosesSelection(src, name) || EnclosesMoved(src, moved, name)
            || exists i: nat :: UsesOutside(src, moved, name, i)
  {
    assert !Movable(src, moved, name);
    OutsideIsOutside(src, moved, name);
  }

  // ---- the whole extraction ------------------------------------------------

  function SelectedSpans(src: Source): (spans: seq<Span>)
  {
    seq(|src.selected|, i requires 0 <= i < |src.selected| => SpanOf(src.selected[i]))
  }

  function MovedSpans(src: Source, moved: seq<string>): (spans: seq<Span>)
  {
    seq(|moved|, i requires 0 <= i < |moved| => NodeSpan(src, moved[i]))
  }

  ghost predicate InFile(src: Source, s: Span)
  {
    1 <= s.first <= s.last <= |src.lines|
  }

  ghost predicate AllInFile(src: Source)
  {
    && (forall a :: a in src.nodes ==> InFile(src, NodeSpan(src, a)))
    && (forall i :: 0 <= i < |src.selected| ==> InFile(src, SpanOf(src.selected[i])))
  }

  /** Every definition and every selected method has lines of its own; a definition may
      contain a method, as its class does. */
  ghost predicate OwnLines(src: Source)
  {
    && AllInFile(src)
    && (forall a, b :: a in src.nodes && b in src.nodes && a != b ==> Apart(NodeSpan(src, a), NodeSpan(src, b)))
    && PairwiseApart(SelectedSpans(src))
    && (forall a, i :: a in src.nodes && 0 <= i < |src.selected| && !Apart(NodeSpan(src, a), SpanOf(src.selected[i]))
          ==> Contains(NodeSpan(src, a), SpanOf(src.selected[i])))
  }

  lemma OwnLinesNeverNest(src: Source)
    requires OwnLines(src)
    ensures NoNesting(src) && ContainersFirst(src)
  {
    NestingFreeIsFirst(src);
  }

  lemma TravellersAreApart(src: Source, moved: seq<string>)
    requires OwnLines(src) && NoRepeats(moved) && Settled(src, SetOf(moved))
    ensures PairwiseApart(SelectedSpans(src) + MovedSpans(src, moved))
    ensures Within(SelectedSpans(src) + MovedSpans(src, moved), |src.lines|)
  {
    var n := |src.selected|;
    forall k | 0 <= k < |moved|
      ensures moved[k] in src.nodes && InFile(src, NodeSpan(src, moved[k]))
      ensures forall i :: 0 <= i < n ==> Apart(NodeSpan(src, moved[k]), SpanOf(src.selected[i]))
    {
      assert moved[k] in SetOf(moved);
    }
  }

  lemma TravellersInFile(src: Source, moved: seq<string>)
    requires AllInFile(src) && Settled(src, SetOf(moved))
    ensures Within(Sort(SelectedSpans(src)) + MovedSpans(src, moved), |src.lines|)
  {
    forall k | 0 <= k < |moved|
      ensures InFile(src, NodeSpan(src, moved[k]))
    {
      assert moved[k] in SetOf(moved);
    }
    SortOrders(SelectedSpans(src), |src.lines|);
  }

  /** The spans in the order in which the source cuts them, backwards. */
  function CutOrder(src: Source, moved: seq<string>): (spans: seq<Span>)
  {
    Sort(Sort(SelectedSpans(src)) + MovedSpans(src, moved))
  }

  /** What leaves the file and what stays, whatever the definitions share. The texts of
      methods and symbols are those before the late imports are added to them. */
  method Extract(src: Source) returns (methods: seq<Line>, locals: seq<Line>, remaining: seq<Line>, stuck: set<string>,
                                       ghost moved: seq<string>)
    requires AllInFile(src)
    // the travellers are the least set exactly when containers are free first
    ensures IsLeast(src, SetOf(moved)) <==> ContainersFirst(src)
    ensures stuck == set name | name in src.nodes && name !in moved && Needed(src, SetOf(moved), name)
    // the rest of the file stays exactly when no such line follows two overlapping spans
    ensures remaining == KeepBy(src.lines, Cover(|src.lines|, CutOrder(src, moved)))
            <==> !LosesALine(|src.lines|, CutOrder(src, moved))
    ensures methods == Bodies(src.lines, Sort(SelectedSpans(src)))
    ensures locals == Bodies(src.lines, SortByFirst(MovedSpans(src, moved)))
    // both conditions hold when definitions have lines of their own
    ensures OwnLines(src) ==> IsLeast(src, SetOf(moved))
    ensures OwnLines(src) ==> Conserved(src, SelectedSpans(src) + MovedSpans(src, moved), methods, locals, remaining)
  {
    var ranges := Sort(SelectedSpans(src));
    var names, left := ChooseMoved(src);
    moved, stuck := names, left;
    var localSpans := MovedSpans(src, names);
    methods := Bodies(src.lines, ranges);
    locals := Bodies(src.lines, SortByFirst(localSpans));
    var all := Sort(ranges + localSpans);
    remaining := DeleteDescending(src.lines, all);
    TravellersInFile(src, names);
    SortOrders(ranges + localSpans, |src.lines|);
    DeletionIsExact(src.lines, all);
    if OwnLines(src) {
      OwnLinesNeverNest(src);
      OwnLinesConserve(src, names);
    }
  }

  /** The lines no span covers stay, and no line is lost or copied. */
  ghost predicate Conserved(src: Source, cut: seq<Span>, methods: seq<Line>, locals: seq<Line>, remaining: seq<Line>)
  {
    && remaining == KeepBy(src.lines, Cover(|src.lines|, cut))
    && multiset(methods) + multiset(locals) + multiset(remaining) == multiset(src.lines)
  }

  lemma OwnLinesConserve(src: Source, moved: seq<string>)
    requires OwnLines(src) && NoRepeats(moved) && Settled(src, SetOf(moved))
    ensures Conserved(src, SelectedSpans(src) + MovedSpans(src, moved), Bodies(src.lines, Sort(SelectedSpans(src))),
                      Bodies(src.lines, SortByFirst(MovedSpans(src, moved))), DeletedAll(src.lines, CutOrder(src, moved)))
  {
    var ranges, localSpans, all := Sort(SelectedSpans(src)), MovedSpans(src, moved), CutOrder(src, moved);
    TravellersAreApart(src, moved);
    SortTwice(SelectedSpans(src), localSpans, |src.lines|);
    SameCover(|src.lines|, all, SelectedSpans(src) + localSpans);
    DescendingDeletionKeepsTheRest(src.lines, all);
    DeletionConserves(src.lines, all);
    BodiesPermute(src.lines, all, ranges + SortByFirst(localSpans));
    BodiesJoin(src.lines, ranges, SortByFirst(localSpans));
  }
}
