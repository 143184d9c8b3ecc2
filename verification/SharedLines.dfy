/** Small sources whose definitions share lines, on which the mixin extractor does less
    than it should (scripts/extract_kernel_mixin.py). */
module SharedLines {
  import opened Common
  import opened LineDeletion
  import opened MixinExtractor
  import opened SymbolOrder

  // ---- two assignments on one line -----------------------------------------

  /** Two assignments on one line, the class, its selected method, a method that stays. */
  function SharedLineSource(): (src: Source)
  {
    var pair := Node([], 1, 1, {});
    Source([Line("a = 1; b = 2", false, {"a", "b"}), Line("class Kernel:", false, {"class", "Kernel"}),
            Line("    def m(self): return a + b", false, {"def", "m", "self", "return", "a", "b"}),
            Line("    def n(self): pass", false, {"def", "n", "self", "pass"})],
           map["a" := pair, "b" := pair, "Kernel" := Node([], 2, 4, {"a", "b"})], [Node([], 3, 3, {"a", "b"})])
  }

  lemma SharedSpans()
    ensures var src := SharedLineSource();
            && NodeSpan(src, "a") == NodeSpan(src, "b") == Span(1, 1)
            && SelectedSpans(src) == [Span(3, 3)]
            && MovedSpans(src, ["a", "b"]) == [Span(1, 1), Span(1, 1)]
  {
  }

  lemma NoOutsideUse(name: string, number: nat)
    requires name == "a" || name == "b"
    ensures !UsedAt(SharedLineSource(), {}, name, number)
  {
    SharedSpans();
    var src := SharedLineSource();
    if number == 3 {
      assert In(number, SelectedSpans(src)[0]);
      assert In(number, SpanOf(src.selected[0]));
    }
  }

  lemma BothMayGo(name: string)
    requires name == "a" || name == "b"
    ensures Movable(SharedLineSource(), {}, name)
  {
    SharedSpans();
    var src := SharedLineSource();
    assert name in src.selected[0].loads;
    forall number | 1 <= number <= |src.lines|
      ensures !UsedAt(src, {}, name, number)
    {
      NoOutsideUse(name, number);
    }
    assert SpanOf(src.selected[0]) == SelectedSpans(src)[0];
  }

  lemma SharedSort(line: Span, body: Span)
    requires line.first < body.first
    ensures Sort([body, line, line]) == [line, line, body]
  {
    assert [line, line][1..] == [line] && [line][1..] == [];
    assert Sort([line]) == [line];
    assert Sort([line, line]) == [line, line];
    assert [body, line, line][1..] == [line, line];
    assert Insert(body, [line]) == [line] + Insert(body, []);
    assert Insert(body, [line, line]) == [line] + Insert(body, [line]);
  }

  lemma SharedDeletion<T>(lines: seq<T>, line: Span, body: Span)
    requires |lines| == 4 && line == Span(1, 1) && body == Span(3, 3)
    ensures DeletedAll(lines, [line, line, body]) == [lines[3]]
  {
    var three, two := Deleted(lines, body), Deleted(Deleted(lines, body), line);
    DeletedLast(lines, [line, line], body);
    DeletedLast(three, [line], line);
    DeletedLast(two, [], line);
    assert three == [lines[0], lines[1], lines[3]] && two == [lines[1], lines[3]];
    assert [line, line] + [body] == [line, line, body] && [line] + [line] == [line, line] && [] + [line] == [line];
  }

  /** Without lines of their own the guarantees fail: a round moves two symbols of which
      only one could move alone ... */
  lemma SharedLinesBreakOrder()
    ensures var src := SharedLineSource();
            && !NoNesting(src) && Movable(src, {}, "a") && Movable(src, {}, "b")
            && !Movable(src, {"a"}, "b") && !Movable(src, {"b"}, "a")
  {
    var src := SharedLineSource();
    SharedSpans();
    BothMayGo("a");
    BothMayGo("b");
    assert Contains(NodeSpan(src, "b"), NodeSpan(src, "a")) && "a" in src.nodes && "b" in src.nodes && "a" != "b";
    assert EnclosesMoved(src, {"a"}, "b") && EnclosesMoved(src, {"b"}, "a");
  }

  /** ... and deleting their shared line twice takes a line that no span covers. */
  lemma SharedLinesLoseALine()
    ensures var src := SharedLineSource();
            var cut := SelectedSpans(src) + MovedSpans(src, ["a", "b"]);
            !Covered(2, cut) && DeletedAll(src.lines, Sort(cut)) == [src.lines[3]]
  {
    var src := SharedLineSource();
    var line, body := Span(1, 1), Span(3, 3);
    SharedSpans();
    assert [body] + [line, line] == [body, line, line];
    SharedSort(line, body);
    SharedDeletion(src.lines, line, body);
    NotCovered(line, body);
  }

  lemma NotCovered(line: Span, body: Span)
    requires line == Span(1, 1) && body == Span(3, 3)
    ensures !Covered(2, [body, line, line])
  {
  }

  lemma KernelStays(moved: set<string>)
    ensures !Movable(SharedLineSource(), moved, "Kernel")
  {
    var src := SharedLineSource();
    SharedSpans();
    assert SpanOf(src.selected[0]) == SelectedSpans(src)[0];
    assert Contains(NodeSpan(src, "Kernel"), SpanOf(src.selected[0]));
  }

  lemma AloneIsTheEnd(name: string)
    requires name == "a" || name == "b"
    ensures Exhausted(SharedLineSource(), [name])
  {
    var src := SharedLineSource();
    SharedSpans();
    BothMayGo(name);
    SetOfSnoc([], name);
    assert [] + [name] == [name] && SetOf([]) == {};
    StepwiseSnoc(src, [], name);
    KernelStays({name});
    assert Contains(NodeSpan(src, "a"), NodeSpan(src, name)) && Contains(NodeSpan(src, "b"), NodeSpan(src, name));
    assert EnclosesMoved(src, {name}, "a") && EnclosesMoved(src, {name}, "b");
  }

  /** So two orders of single additions end differently, and neither as the rounds do. */
  lemma SharedLinesEndDifferently()
    ensures var src := SharedLineSource();
            && Exhausted(src, ["a"]) && Exhausted(src, ["b"]) && SetOf(["a"]) != SetOf(["b"])
            && Rounds(src, 1) == {"a", "b"} && NothingMovable(src, Rounds(src, 1))
  {
    var src := SharedLineSource();
    AloneIsTheEnd("a");
    AloneIsTheEnd("b");
    assert "a" in SetOf(["a"]) && "a" !in SetOf(["b"]);
    FirstRound();
    KernelStays({"a", "b"});
  }

  lemma FirstRound()
    ensures Rounds(SharedLineSource(), 1) == {"a", "b"}
  {
    var src := SharedLineSource();
    BothMayGo("a");
    BothMayGo("b");
    KernelStays({});
    assert Rounds(src, 0) == {};
    assert forall name :: name in src.nodes ==> name == "a" || name == "b" || name == "Kernel";
  }

  // ---- a container that is late --------------------------------------------

  /** As above, but `b` is only used by a function that travels. */
  function LateSource(): (src: Source)
  {
    var pair := Node([], 1, 1, {});
    Source([Line("a = 1; b = 2", false, {"a", "b"}),
            Line("def c(): return b", false, {"def", "c", "return", "b"}),
            Line("class Kernel:", false, {"class", "Kernel"}),
            Line("    def m(self): return a + c()", false, {"def", "m", "self", "return", "a", "c"}),
            Line("    def n(self): pass", false, {"def", "n", "self", "pass"})],
           map["a" := pair, "b" := pair, "c" := Node([], 2, 2, {"b"}), "Kernel" := Node([], 3, 5, {"a", "c"})],
           [Node([], 4, 4, {"a", "c"})])
  }

  lemma LateSpans()
    ensures var src := LateSource();
            && NodeSpan(src, "a") == NodeSpan(src, "b") == Span(1, 1) && NodeSpan(src, "c") == Span(2, 2)
            && SelectedSpans(src) == [Span(4, 4)]
  {
  }

  lemma LateFirstRound(name: string)
    requires name == "a" || name == "c"
    ensures name in Freed(LateSource(), 1)
  {
    var src := LateSource();
    LateSpans();
    assert SpanOf(src.selected[0]) == SelectedSpans(src)[0];
    assert name in src.selected[0].loads;
    forall number | 1 <= number <= |src.lines|
      ensures !UsedAt(src, {}, name, number)
    {
      if number == 4 {
        assert In(number, SpanOf(src.selected[0]));
      }
    }
    assert Freed(src, 0) == {} && Free(src, {}, name);
  }

  lemma LateSecondRound()
    ensures Free(LateSource(), Freed(LateSource(), 1), "b") && "b" !in Freed(LateSource(), 1)
  {
    var src := LateSource();
    var moved := Freed(src, 1);
    LateSpans();
    LateFirstRound("c");
    assert SpanOf(src.selected[0]) == SelectedSpans(src)[0];
    assert "b" in src.nodes["c"].loads;
    forall number | 1 <= number <= |src.lines|
      ensures !UsedAt(src, moved, "b", number)
    {
      if number == 2 {
        assert In(number, NodeSpan(src, "c"));
      }
    }
    assert Freed(src, 0) == {} && !Needed(src, {}, "b");
  }

  /** The rounds leave `b` behind: it becomes free one round after `a`, whose line it
      shares. */
  lemma LateContainerStays(last: nat)
    requires NothingMovable(LateSource(), Rounds(LateSource(), last))
    ensures ContainerIsLate(LateSource(), 1, "b") && !IsLeast(LateSource(), Rounds(LateSource(), last))
  {
    var src := LateSource();
    LateSpans();
    LateFirstRound("a");
    LateSecondRound();
    assert Contains(NodeSpan(src, "b"), NodeSpan(src, "a"));
    assert ContainerIsLate(src, 1, "b") && !NoneLate(src, 1);
    RoundsAreExact(src, last);
  }
}
