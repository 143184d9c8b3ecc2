/** Adding travelling symbols one at a time instead of in rounds
    (scripts/extract_kernel_mixin.py). */
module SymbolOrder {
  import opened Common
  import opened LineDeletion
  import opened MixinExtractor

  /** Symbols added one at a time, each movable when it is added. */
  ghost predicate Stepwise(src: Source, order: seq<string>)
  {
    forall i :: 0 <= i < |order| ==> Movable(src, SetOf(order[..i]), order[i])
  }

  /** Nothing more can be added. */
  ghost predicate Exhausted(src: Source, order: seq<string>)
  {
    Stepwise(src, order) && NothingMovable(src, SetOf(order))
  }

  lemma StepwiseInit(src: Source, order: seq<string>, n: nat)
    requires Stepwise(src, order) && n <= |order|
    ensures Stepwise(src, order[..n])
  {
    forall i | 0 <= i < n
      ensures Movable(src, SetOf(order[..n][..i]), order[..n][i])
    {
      assert order[..n][..i] == order[..i];
    }
  }

  lemma SetOfSnoc(order: seq<string>, name: string)
    ensures SetOf(order + [name]) == SetOf(order) + {name}
  {
  }

  lemma StepwiseSnoc(src: Source, order: seq<string>, name: string)
    requires Stepwise(src, order) && Movable(src, SetOf(order), name)
    ensures Stepwise(src, order + [name])
  {
    var more := order + [name];
    forall i | 0 <= i < |more|
      ensures Movable(src, SetOf(more[..i]), more[i])
    {
      assert more[..i] == order[..i];
      assert order[..|order|] == order;
    }
  }

  lemma {:induction false} StepwiseBelow(src: Source, order: seq<string>)
    requires Stepwise(src, order)
    ensures BelowClosed(src, SetOf(order))
  {
    if order != [] {
      var init, last := LastAdded(src, order);
      StepwiseBelow(src, init);
      AddBelow(src, SetOf(init), {last});
    }
  }

  lemma LastAdded(src: Source, order: seq<string>) returns (init: seq<string>, last: string)
    requires Stepwise(src, order) && order != []
    ensures order == init + [last] && |init| < |order| && SetOf(order) == SetOf(init) + {last}
    ensures Stepwise(src, init) && Movable(src, SetOf(init), last)
  {
    init, last := order[..|order| - 1], order[|order| - 1];
    StepwiseInit(src, order, |init|);
    SetOfSnoc(init, last);
    assert order == init + [last];
  }

  // ---- what becomes free without one symbol --------------------------------

  /** The unrestricted rounds when `banned` may not travel. */
  ghost function FreedWithout(src: Source, k: nat, banned: string): (freed: set<string>)
  {
    if k == 0 then {}
    else
      FreedWithout(src, k - 1, banned)
      + set name | name in src.nodes && name != banned && Free(src, FreedWithout(src, k - 1, banned), name)
  }

  /** `inner` can be free before the travelling definition `outer`, which contains it. */
  ghost predicate InnerMayLead(src: Source, outer: string, inner: string)
  {
    && outer in src.nodes && inner in src.nodes && Contains(NodeSpan(src, outer), NodeSpan(src, inner))
    && (exists k: nat :: outer in Freed(src, k)) && (exists k: nat :: inner in FreedWithout(src, k, outer))
  }

  ghost predicate SomeInnerMayLead(src: Source)
  {
    exists outer: string, inner: string :: InnerMayLead(src, outer, inner)
  }

  lemma {:induction false} WithoutIsLess(src: Source, k: nat, banned: string)
    ensures FreedWithout(src, k, banned) <= Freed(src, k) && banned !in FreedWithout(src, k, banned)
    ensures FreedWithout(src, k, banned) <= src.nodes.Keys
  {
    if k > 0 {
      WithoutIsLess(src, k - 1, banned);
      forall name | name in src.nodes && name != banned && Free(src, FreedWithout(src, k - 1, banned), name)
        ensures name in Freed(src, k)
      {
        FreeIsMonotone(src, FreedWithout(src, k - 1, banned), Freed(src, k - 1), name);
      }
    }
  }

  lemma FreeSoon(src: Source, k: nat, moved: set<string>, name: string)
    requires moved <= Freed(src, k) && Free(src, moved, name)
    ensures name in Freed(src, k + 1)
  {
    FreeIsMonotone(src, moved, Freed(src, k), name);
  }

  /** Single additions that never take `banned` stay within those rounds. */
  lemma {:induction false} StepwiseAvoids(src: Source, order: seq<string>, banned: string)
    requires Stepwise(src, order) && banned !in SetOf(order)
    ensures SetOf(order) <= FreedWithout(src, |order|, banned)
  {
    if order != [] {
      var init, last := LastAdded(src, order);
      StepwiseAvoids(src, init, banned);
      FreeIsMonotone(src, SetOf(init), FreedWithout(src, |init|, banned), last);
    }
  }

  // ---- an order that fails -------------------------------------------------

  /** Every order can be continued until nothing but `avoid` can be added. */
  lemma Continue(src: Source, order: seq<string>, avoid: set<string>) returns (more: seq<string>)
    requires Stepwise(src, order) && SetOf(order) !! avoid
    ensures Stepwise(src, more) && order <= more && SetOf(more) !! avoid
    ensures forall name :: name in src.nodes && name !in avoid ==> !Movable(src, SetOf(more), name)
    decreases src.nodes.Keys - SetOf(order)
  {
    if name :| name in src.nodes && name !in avoid && Movable(src, SetOf(order), name) {
      StepwiseSnoc(src, order, name);
      SetOfSnoc(order, name);
      more := Continue(src, order + [name], avoid);
    } else {
      more := order;
    }
  }

  /** What contains something that travels is never added. */
  lemma NeverAdded(src: Source, order: seq<string>, more: seq<string>, name: string)
    requires Stepwise(src, more) && order <= more
    requires name !in SetOf(order) && EnclosesMoved(src, SetOf(order), name)
    ensures name !in SetOf(more)
  {
    forall i | 0 <= i < |more|
      ensures more[i] != name
    {
      if i < |order| {
        assert order[i] in SetOf(order);
      } else {
        assert SetOf(order) <= SetOf(more[..i]) by {
          assert order == more[..i][..|order|];
        }
        assert Movable(src, SetOf(more[..i]), more[i]);
      }
    }
  }

  /** Among the first rounds without `banned` there is a first symbol the set lacks. */
  lemma {:induction false} FirstLacking(src: Source, k: nat, banned: string, moved: set<string>) returns (name: string)
    requires !(FreedWithout(src, k, banned) <= moved)
    ensures name in src.nodes && name != banned && name !in moved && Free(src, moved, name)
    ensures name in Freed(src, k)
  {
    if FreedWithout(src, k - 1, banned) <= moved {
      name :| name in FreedWithout(src, k, banned) && name !in moved;
      FreeIsMonotone(src, FreedWithout(src, k - 1, banned), moved, name);
      WithoutIsLess(src, k, banned);
    } else {
      name := FirstLacking(src, k - 1, banned, moved);
    }
  }

  /** If an inner definition can lead, some order leaves a free symbol behind. */
  lemma LeadingFails(src: Source, outer: string, inner: string) returns (order: seq<string>)
    requires InnerMayLead(src, outer, inner)
    ensures Exhausted(src, order) && !IsLeast(src, SetOf(order))
  {
    var start, late, k := LeadInner(src, outer, inner);
    order := Continue(src, start, {});
    NeverAdded(src, start, order, late);
    FreedBelowClosed(src, k);
  }

  /** Additions after which `late`, which travels, can no longer be added. */
  lemma LeadInner(src: Source, outer: string, inner: string) returns (start: seq<string>, late: string, k: nat)
    requires InnerMayLead(src, outer, inner)
    ensures Stepwise(src, start) && late !in SetOf(start) && EnclosesMoved(src, SetOf(start), late) && late in Freed(src, k)
  {
    start := Continue(src, [], {outer});
    var level: nat :| inner in FreedWithout(src, level, outer);
    if FreedWithout(src, level, outer) <= SetOf(start) {
      late := outer;
      k :| outer in Freed(src, k);
    } else {
      late := FirstLacking(src, level, outer, SetOf(start));
      k := level;
      assert !Movable(src, SetOf(start), late);
    }
  }

  // ---- exactly when the order does not matter ------------------------------

  /** Otherwise every order ends with the least set. */
  lemma NoLeadIsLeast(src: Source, order: seq<string>)
    requires !SomeInnerMayLead(src) && Exhausted(src, order)
    ensures IsLeast(src, SetOf(order))
  {
    StepwiseBelow(src, order);
    forall name | name in src.nodes && Free(src, SetOf(order), name)
      ensures name in SetOf(order)
    {
      if name !in SetOf(order) {
        StuckInnerLeads(src, order, name);
        assert false;
      }
    }
  }

  lemma StuckInnerLeads(src: Source, order: seq<string>, name: string)
    requires Exhausted(src, order) && name in src.nodes && name !in SetOf(order) && Free(src, SetOf(order), name)
    ensures SomeInnerMayLead(src)
  {
    assert !Movable(src, SetOf(order), name);
    var inner :| inner in SetOf(order) && Contains(NodeSpan(src, name), NodeSpan(src, inner));
    StepwiseAvoids(src, order, name);
    WithoutIsLess(src, |order|, name);
    FreeSoon(src, |order|, SetOf(order), name);
    assert InnerMayLead(src, name, inner);
  }

  /** Single additions end with the least set in every order if and only if no definition
      can become free before one that contains it and travels. */
  lemma OrdersAreExact(src: Source)
    ensures (forall order: seq<string> :: Exhausted(src, order) ==> IsLeast(src, SetOf(order))) <==> !SomeInnerMayLead(src)
  {
    if SomeInnerMayLead(src) {
      var outer: string, inner: string :| InnerMayLead(src, outer, inner);
      var order := LeadingFails(src, outer, inner);
    } else {
      forall order: seq<string> | Exhausted(src, order)
        ensures IsLeast(src, SetOf(order))
      {
        NoLeadIsLeast(src, order);
      }
    }
  }

  /** Then the order is irrelevant: singly or in rounds, the same set travels. */
  lemma OrderIsIrrelevant(src: Source, order: seq<string>, last: nat)
    requires !SomeInnerMayLead(src) && Exhausted(src, order) && NothingMovable(src, Rounds(src, last))
    ensures SetOf(order) == Rounds(src, last)
  {
    NoLeadIsLeast(src, order);
    NoLeadIsFirst(src);
    RoundsAreExact(src, last);
    LeastIsUnique(src, SetOf(order), Rounds(src, last));
  }

  lemma NoLeadIsFirst(src: Source)
    requires !SomeInnerMayLead(src)
    ensures ContainersFirst(src)
  {
    forall k: nat, name: string
      ensures !ContainerIsLate(src, k, name)
    {
      if ContainerIsLate(src, k, name) {
        LateLeads(src, k, name);
        assert false;
      }
    }
    assert forall k: nat :: NoneLate(src, k);
  }

  lemma LateLeads(src: Source, k: nat, name: string)
    requires ContainerIsLate(src, k, name)
    ensures SomeInnerMayLead(src)
  {
    var inner :| inner in Freed(src, k) && Contains(NodeSpan(src, name), NodeSpan(src, inner));
    SameWithout(src, k, name);
    FreedAreNodes(src, k);
    FreeSoon(src, k, Freed(src, k), name);
    assert InnerMayLead(src, name, inner);
  }

  lemma {:induction false} SameWithout(src: Source, k: nat, banned: string)
    requires banned !in Freed(src, k)
    ensures FreedWithout(src, k, banned) == Freed(src, k)
  {
    if k > 0 {
      SameWithout(src, k - 1, banned);
    }
  }

  lemma NestingFreeNeverLeads(src: Source)
    requires NoNesting(src)
    ensures !SomeInnerMayLead(src)
  {
    forall outer: string, inner: string
      ensures !InnerMayLead(src, outer, inner)
    {
      if k: nat :| inner in FreedWithout(src, k, outer) {
        WithoutIsLess(src, k, outer);
      }
    }
  }
}
