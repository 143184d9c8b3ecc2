/** Cutting spans of lines out of a file, the last span first
    (scripts/extract_kernel_mixin.py). */
module LineDeletion {
  import opened Common

  /** Inclusive, 1-based. */
  datatype Span = Span(first: nat, last: nat)

  predicate In(number: nat, s: Span)
  {
    s.first <= number <= s.last
  }

  /** `outer` contains all of `inner`. */
  predicate Contains(outer: Span, inner: Span)
  {
    outer.first <= inner.first && inner.last <= outer.last
  }

  predicate Apart(a: Span, b: Span)
  {
    a.last < b.first || b.last < a.first
  }

  // ---- sorting spans -------------------------------------------------------

  predicate NotAfter(a: Span, b: Span)
  {
    a.first < b.first || (a.first == b.first && a.last <= b.last)
  }

  function Insert(x: Span, spans: seq<Span>): (r: seq<Span>)
    ensures multiset(r) == multiset(spans) + multiset{x}
  {
    if spans == [] || NotAfter(x, spans[0]) then [x] + spans
    else
      assert spans == [spans[0]] + spans[1..];
      [spans[0]] + Insert(x, spans[1..])
  }

  function Sort(spans: seq<Span>): (r: seq<Span>)
    ensures multiset(r) == multiset(spans)
  {
    if spans == [] then []
    else
      assert spans == [spans[0]] + spans[1..];
      Insert(spans[0], Sort(spans[1..]))
  }

  /** By first line only; spans that begin together stay in their order. */
  function SortByFirst(spans: seq<Span>): (r: seq<Span>)
    ensures multiset(r) == multiset(spans)
  {
    if spans == [] then []
    else
      assert spans == [spans[0]] + spans[1..];
      InsertByFirst(spans[0], SortByFirst(spans[1..]))
  }

  function InsertByFirst(x: Span, spans: seq<Span>): (r: seq<Span>)
    ensures multiset(r) == multiset(spans) + multiset{x}
  {
    if spans == [] || x.first <= spans[0].first then [x] + spans
    else
      assert spans == [spans[0]] + spans[1..];
      [spans[0]] + InsertByFirst(x, spans[1..])
  }

  ghost predicate Within(spans: seq<Span>, length: nat)
  {
    forall i :: 0 <= i < |spans| ==> 1 <= spans[i].first <= spans[i].last <= length
  }

  ghost predicate PairwiseApart(spans: seq<Span>)
  {
    forall i, j :: 0 <= i < j < |spans| ==> Apart(spans[i], spans[j])
  }

  /** Each span ends before the next begins. */
  ghost predicate Stacked(spans: seq<Span>)
  {
    forall i, j :: 0 <= i < j < |spans| ==> spans[i].last < spans[j].first
  }

  lemma InOrNot(x: Span, spans: seq<Span>, y: Span)
    ensures y in Insert(x, spans) <==> y == x || y in spans
  {
    assert y in Insert(x, spans) <==> y in multiset(Insert(x, spans));
    assert y in spans <==> y in multiset(spans);
  }

  lemma {:induction false} InsertStacks(x: Span, spans: seq<Span>, length: nat)
    requires Stacked(spans) && Within(spans, length) && Within([x], length)
    requires forall i :: 0 <= i < |spans| ==> Apart(x, spans[i])
    ensures Stacked(Insert(x, spans)) && Within(Insert(x, spans), length)
  {
    assert 1 <= [x][0].first <= [x][0].last <= length;
    if spans != [] && !NotAfter(x, spans[0]) {
      InsertStacks(x, spans[1..], length);
      var rest := Insert(x, spans[1..]);
      forall j | 0 <= j < |rest|
        ensures spans[0].last < rest[j].first
      {
        InOrNot(x, spans[1..], rest[j]);
      }
      StackedCons(spans[0], rest, length);
    } else {
      StackedCons(x, spans, length);
    }
  }

  lemma StackedCons(x: Span, spans: seq<Span>, length: nat)
    requires Stacked(spans) && Within(spans, length) && 1 <= x.first <= x.last <= length
    requires forall j :: 0 <= j < |spans| ==> x.last < spans[j].first
    ensures Stacked([x] + spans) && Within([x] + spans, length)
  {
  }

  lemma {:induction false} SortStacks(spans: seq<Span>, length: nat)
    requires PairwiseApart(spans) && Within(spans, length)
    ensures Stacked(Sort(spans)) && Within(Sort(spans), length)
  {
    if spans != [] {
      SortStacks(spans[1..], length);
      var rest := Sort(spans[1..]);
      forall i | 0 <= i < |rest|
        ensures Apart(spans[0], rest[i])
      {
        assert rest[i] in multiset(spans[1..]);
      }
      InsertStacks(spans[0], rest, length);
    }
  }

  // ---- cutting lines out ---------------------------------------------------

  function AtMost(n: nat, bound: nat): (r: nat)
    ensures r <= n && r <= bound
  {
    if n < bound then n else bound
  }

  /** `del lines[first - 1:last]`: bounds past the end are cut back. */
  function Deleted<T>(lines: seq<T>, s: Span): (r: seq<T>)
  {
    if s.first == 0 || s.last < s.first then lines
    else lines[..AtMost(s.first - 1, |lines|)] + lines[AtMost(s.last, |lines|)..]
  }

  /** Deleting the spans one after the other, the last first. */
  function DeletedAll<T>(lines: seq<T>, spans: seq<Span>): (r: seq<T>)
    decreases spans
  {
    if spans == [] then lines
    else DeletedAll(Deleted(lines, spans[|spans| - 1]), spans[..|spans| - 1])
  }

  predicate Covered(number: nat, spans: seq<Span>)
  {
    exists i :: 0 <= i < |spans| && In(number, spans[i])
  }

  function Cover(length: nat, spans: seq<Span>): (mask: seq<bool>)
  {
    seq(length, i requires 0 <= i < length => Covered(i + 1, spans))
  }

  function BodyOf<T>(lines: seq<T>, s: Span): (body: seq<T>)
  {
    if 1 <= s.first <= s.last <= |lines| then lines[s.first - 1..s.last] else []
  }

  function Parts<T>(lines: seq<T>, spans: seq<Span>): (parts: seq<seq<T>>)
  {
    seq(|spans|, i requires 0 <= i < |spans| => BodyOf(lines, spans[i]))
  }

  /** The lines of the spans, one span after the other. */
  function Bodies<T>(lines: seq<T>, spans: seq<Span>): (r: seq<T>)
  {
    Flatten(Parts(lines, spans))
  }

  method DeleteDescending<T>(lines: seq<T>, sorted: seq<Span>) returns (r: seq<T>)
    ensures r == DeletedAll(lines, sorted)
  {
    r := lines;
    assert sorted[..|sorted|] == sorted;
    for i := |sorted| downto 0
      invariant DeletedAll(r, sorted[..i]) == DeletedAll(lines, sorted)
    {
      assert sorted[..i + 1][..i] == sorted[..i];
      r := Deleted(r, sorted[i]);
    }
  }

  lemma {:induction false} AllKept<T>(s: seq<T>, mask: seq<bool>)
    requires |s| == |mask| && forall i :: 0 <= i < |mask| ==> !mask[i]
    ensures KeepBy(s, mask) == s
  {
    MaskNone(s, mask);
  }

  lemma {:induction false} NoneKept<T>(s: seq<T>, mask: seq<bool>)
    requires |s| == |mask| && forall i :: 0 <= i < |mask| ==> mask[i]
    ensures KeepBy(s, mask) == []
  {
    if s != [] {
      NoneKept(s[1..], mask[1..]);
    }
  }

  /** Where the lines before, in and after the last span go. */
  lemma CoverOfLast(length: nat, spans: seq<Span>)
    requires spans != [] && Stacked(spans) && Within(spans, length)
    ensures var n, x := |spans| - 1, spans[|spans| - 1];
            && Cover(length, spans)[..x.first - 1] == Cover(x.first - 1, spans[..n])
            && (forall i :: x.first - 1 <= i < x.last ==> Cover(length, spans)[i])
            && (forall i :: x.last <= i < length ==> !Cover(length, spans)[i])
  {
    var n, x := |spans| - 1, spans[|spans| - 1];
    forall i | 0 <= i < x.first - 1
      ensures Cover(length, spans)[i] == Cover(x.first - 1, spans[..n])[i]
    {
      if Covered(i + 1, spans) {
        var k :| 0 <= k < |spans| && In(i + 1, spans[k]);
        assert k < n && spans[..n][k] == spans[k];
      }
      if Covered(i + 1, spans[..n]) {
        var k :| 0 <= k < n && In(i + 1, spans[..n][k]);
        assert In(i + 1, spans[k]);
      }
    }
    forall i | x.first - 1 <= i < x.last
      ensures Cover(length, spans)[i]
    {
      assert In(i + 1, spans[n]);
    }
  }

  lemma KeepAround<T>(lines: seq<T>, x: Span, mask: seq<bool>)
    requires |mask| == |lines| && 1 <= x.first <= x.last <= |lines|
    requires forall i :: x.first - 1 <= i < x.last ==> mask[i]
    requires forall i :: x.last <= i < |lines| ==> !mask[i]
    ensures KeepBy(lines, mask) == KeepBy(lines[..x.first - 1], mask[..x.first - 1]) + lines[x.last..]
  {
    var f, l := x.first - 1, x.last;
    KeptTail(lines, l, mask);
    CutTail(lines[..l], f, mask[..l]);
    assert lines[..l][..f] == lines[..f] && mask[..l][..f] == mask[..f];
  }

  lemma KeptTail<T>(lines: seq<T>, l: nat, mask: seq<bool>)
    requires l <= |lines| == |mask| && forall i :: l <= i < |mask| ==> !mask[i]
    ensures KeepBy(lines, mask) == KeepBy(lines[..l], mask[..l]) + lines[l..]
  {
    AllKept(lines[l..], mask[l..]);
    KeepJoin(lines[..l], lines[l..], mask[..l], mask[l..]);
    assert lines[..l] + lines[l..] == lines && mask[..l] + mask[l..] == mask;
  }

  lemma CutTail<T>(lines: seq<T>, f: nat, mask: seq<bool>)
    requires f <= |lines| == |mask| && forall i :: f <= i < |mask| ==> mask[i]
    ensures KeepBy(lines, mask) == KeepBy(lines[..f], mask[..f])
  {
    NoneKept(lines[f..], mask[f..]);
    KeepJoin(lines[..f], lines[f..], mask[..f], mask[f..]);
    assert lines[..f] + lines[f..] == lines && mask[..f] + mask[f..] == mask;
  }

  lemma KeepJoin<T>(a: seq<T>, b: seq<T>, ma: seq<bool>, mb: seq<bool>)
    requires |a| == |ma| && |b| == |mb|
    ensures KeepBy(a + b, ma + mb) == KeepBy(a, ma) + KeepBy(b, mb)
  {
    MaskSplit(a, b, ma, mb);
  }

  lemma KeepBelow<T>(below: seq<T>, after: seq<T>, spans: seq<Span>)
    requires forall i :: 0 <= i < |spans| ==> spans[i].last <= |below|
    ensures KeepBy(below + after, Cover(|below + after|, spans)) == KeepBy(below, Cover(|below|, spans)) + after
  {
    var mask := Cover(|below + after|, spans);
    KeptTail(below + after, |below|, mask);
    assert mask[..|below|] == Cover(|below|, spans);
    assert (below + after)[..|below|] == below && (below + after)[|below|..] == after;
  }

  /** Deleting disjoint spans from the last to the first leaves exactly the lines no
      span covers, in order. */
  lemma {:induction false} DescendingDeletionKeepsTheRest<T>(lines: seq<T>, spans: seq<Span>)
    requires Stacked(spans) && Within(spans, |lines|)
    ensures DeletedAll(lines, spans) == KeepBy(lines, Cover(|lines|, spans))
  {
    if spans == [] {
      AllKept(lines, Cover(|lines|, spans));
    } else {
      var n, x := |spans| - 1, spans[|spans| - 1];
      var init := spans[..n];
      var below, after := lines[..x.first - 1], lines[x.last..];
      assert Deleted(lines, x) == below + after;
      StackedInit(spans, |lines|);
      DescendingDeletionKeepsTheRest(below + after, init);
      KeepBelow(below, after, init);
      CoverOfLast(|lines|, spans);
      KeepAround(lines, x, Cover(|lines|, spans));
    }
  }

  lemma BodiesBelow<T>(lines: seq<T>, below: nat, after: seq<T>, spans: seq<Span>)
    requires below <= |lines| && Within(spans, below)
    ensures Bodies(lines[..below] + after, spans) == Bodies(lines, spans)
  {
    forall i | 0 <= i < |spans|
      ensures Parts(lines[..below] + after, spans)[i] == Parts(lines, spans)[i]
    {
      assert 1 <= spans[i].first <= spans[i].last <= below;
    }
    assert Parts(lines[..below] + after, spans) == Parts(lines, spans);
  }

  lemma BodiesJoin<T>(lines: seq<T>, a: seq<Span>, b: seq<Span>)
    ensures Bodies(lines, a + b) == Bodies(lines, a) + Bodies(lines, b)
  {
    assert Parts(lines, a + b) == Parts(lines, a) + Parts(lines, b);
    FlattenAppend(Parts(lines, a), Parts(lines, b));
  }

  lemma OneBody<T>(lines: seq<T>, x: Span)
    ensures Bodies(lines, [x]) == BodyOf(lines, x)
  {
    assert Parts(lines, [x]) == [BodyOf(lines, x)];
    FlattenSingle(BodyOf(lines, x));
  }

  /** No line is lost and none is copied: what is left and what was cut out are the file. */
  lemma {:induction false} DeletionConserves<T>(lines: seq<T>, spans: seq<Span>)
    requires Stacked(spans) && Within(spans, |lines|)
    ensures multiset(DeletedAll(lines, spans)) + multiset(Bodies(lines, spans)) == multiset(lines)
  {
    if spans != [] {
      var init, x, rest := LastSpan(lines, spans);
      WithinMore(init, x.first - 1, |rest|);
      DeletionConserves(rest, init);
      BodiesBelow(lines, x.first - 1, lines[x.last..], init);
      ConservesStep(lines, rest, init, x, DeletedAll(rest, init));
    }
  }

  /** What is left after the last span is deleted. */
  lemma LastSpan<T>(lines: seq<T>, spans: seq<Span>) returns (init: seq<Span>, x: Span, rest: seq<T>)
    requires spans != [] && Stacked(spans) && Within(spans, |lines|)
    ensures 1 <= x.first <= x.last <= |lines| && rest == lines[..x.first - 1] + lines[x.last..]
    ensures spans == init + [x] && Stacked(init) && Within(init, x.first - 1)
    ensures DeletedAll(lines, spans) == DeletedAll(rest, init)
  {
    var n := |spans| - 1;
    init, x := spans[..n], spans[n];
    rest := Deleted(lines, x);
    StackedInit(spans, |lines|);
  }

  lemma WithinMore(spans: seq<Span>, length: nat, more: nat)
    requires Within(spans, length) && length <= more
    ensures Within(spans, more)
  {
  }

  lemma ConservesStep<T>(lines: seq<T>, rest: seq<T>, init: seq<Span>, x: Span, kept: seq<T>)
    requires 1 <= x.first <= x.last <= |lines| && rest == lines[..x.first - 1] + lines[x.last..]
    requires multiset(kept) + multiset(Bodies(lines, init)) == multiset(rest)
    ensures multiset(kept) + multiset(Bodies(lines, init + [x])) == multiset(lines)
  {
    LastBody(lines, init, x);
    RestAndBody(lines, rest, x);
    Regroup(kept, Bodies(lines, init), BodyOf(lines, x), rest, lines);
  }

  lemma RestAndBody<T>(lines: seq<T>, rest: seq<T>, x: Span)
    requires 1 <= x.first <= x.last <= |lines| && rest == lines[..x.first - 1] + lines[x.last..]
    ensures multiset(lines) == multiset(rest) + multiset(BodyOf(lines, x))
  {
    ThreeParts(lines, x.first - 1, x.last);
  }

  lemma StackedInit(spans: seq<Span>, length: nat)
    requires spans != [] && Stacked(spans) && Within(spans, length)
    ensures var n, x := |spans| - 1, spans[|spans| - 1];
            Stacked(spans[..n]) && Within(spans[..n], x.first - 1)
  {
    var n := |spans| - 1;
    forall i | 0 <= i < n
      ensures spans[..n][i] == spans[i] && spans[i].last < spans[n].first && 1 <= spans[i].first <= spans[i].last
    {
    }
  }

  lemma Regroup<T>(kept: seq<T>, cut: seq<T>, body: seq<T>, rest: seq<T>, lines: seq<T>)
    requires multiset(kept) + multiset(cut) == multiset(rest) && multiset(lines) == multiset(rest) + multiset(body)
    ensures multiset(kept) + multiset(cut + body) == multiset(lines)
  {
  }

  lemma LastBody<T>(lines: seq<T>, init: seq<Span>, x: Span)
    ensures Bodies(lines, init + [x]) == Bodies(lines, init) + BodyOf(lines, x)
  {
    BodiesJoin(lines, init, [x]);
    OneBody(lines, x);
  }

  lemma ThreeParts<T>(lines: seq<T>, f: nat, l: nat)
    requires f <= l <= |lines|
    ensures multiset(lines) == multiset(lines[..f] + lines[l..]) + multiset(lines[f..l])
  {
    assert lines == lines[..f] + lines[f..l] + lines[l..];
  }

  lemma RemoveSame<T>(a: seq<T>, b: seq<T>, k: nat)
    requires multiset(a) == multiset(b) && a != [] && k < |b| && b[k] == a[0]
    ensures multiset(a[1..]) == multiset(b[..k] + b[k + 1..])
  {
    ThreeParts(a, 0, 1);
    ThreeParts(b, k, k + 1);
    assert a[..0] + a[1..] == a[1..];
    assert a[0..1] == [a[0]] && b[k..k + 1] == [a[0]];
    assert multiset(a[1..]) == multiset(a) - multiset{a[0]};
    assert multiset(b[..k] + b[k + 1..]) == multiset(b) - multiset{a[0]};
  }

  /** `rest` is `s` without its element at `k`. */
  ghost predicate IsWithout<T>(s: seq<T>, k: nat, rest: seq<T>)
  {
    k < |s| && rest == s[..k] + s[k + 1..]
  }

  lemma BodiesAt<T>(lines: seq<T>, spans: seq<Span>, k: nat, rest: seq<Span>)
    requires IsWithout(spans, k, rest)
    ensures multiset(Bodies(lines, spans)) == multiset(BodyOf(lines, spans[k])) + multiset(Bodies(lines, rest))
  {
    var before, x, after := spans[..k], spans[k], spans[k + 1..];
    assert spans == before + ([x] + after);
    BodiesJoin(lines, before, [x] + after);
    BodiesJoin(lines, [x], after);
    BodiesJoin(lines, before, after);
    OneBody(lines, x);
  }

  /** Two spellings of the same multiset share their first element and the rest. */
  lemma SplitSame<T>(a: seq<T>, b: seq<T>) returns (k: nat, restA: seq<T>, restB: seq<T>)
    requires multiset(a) == multiset(b) && a != []
    ensures IsWithout(a, 0, restA) && IsWithout(b, k, restB) && a[0] == b[k]
    ensures multiset(restA) == multiset(restB) && |restA| < |a|
  {
    assert a[0] in multiset(b);
    k :| 0 <= k < |b| && b[k] == a[0];
    RemoveSame(a, b, k);
    restA, restB := a[1..], b[..k] + b[k + 1..];
    assert a[..0] + a[1..] == a[1..];
  }

  lemma SameBodies<T>(lines: seq<T>, a: seq<Span>, b: seq<Span>, k: nat, restA: seq<Span>, restB: seq<Span>)
    requires IsWithout(a, 0, restA) && IsWithout(b, k, restB) && a[0] == b[k]
    requires multiset(Bodies(lines, restA)) == multiset(Bodies(lines, restB))
    ensures multiset(Bodies(lines, a)) == multiset(Bodies(lines, b))
  {
    BodiesAt(lines, a, 0, restA);
    BodiesAt(lines, b, k, restB);
  }

  /** The lines cut out do not depend on the order of the spans. */
  lemma {:induction false} BodiesPermute<T>(lines: seq<T>, a: seq<Span>, b: seq<Span>)
    requires multiset(a) == multiset(b)
    ensures multiset(Bodies(lines, a)) == multiset(Bodies(lines, b))
    decreases |a|
  {
    if a == [] {
      assert |multiset(b)| == 0;
    } else {
      var k, restA, restB := SplitSame(a, b);
      BodiesPermute(lines, restA, restB);
      SameBodies(lines, a, b, k, restA, restB);
    }
  }

  // ---- spans sorted in two goes --------------------------------------------

  lemma SortTwice(selected: seq<Span>, locals: seq<Span>, length: nat)
    requires PairwiseApart(selected + locals) && Within(selected + locals, length)
    ensures Stacked(Sort(Sort(selected) + locals)) && Within(Sort(Sort(selected) + locals), length)
  {
    var both, ranges := selected + locals, Sort(selected);
    assert both[..|selected|] == selected;
    forall i, j | 0 <= i < j < |selected|
      ensures Apart(selected[i], selected[j])
    {
      assert both[i] == selected[i] && both[j] == selected[j];
    }
    forall i | 0 <= i < |selected|
      ensures 1 <= selected[i].first <= selected[i].last <= length
    {
      assert both[i] == selected[i];
    }
    SortStacks(selected, length);
    forall i, j | 0 <= i < j < |ranges + locals|
      ensures Apart((ranges + locals)[i], (ranges + locals)[j])
    {
      ApartAcross(selected, locals, i, j);
    }
    forall i | 0 <= i < |locals|
      ensures 1 <= locals[i].first <= locals[i].last <= length
    {
      assert both[|selected| + i] == locals[i];
    }
    SortStacks(ranges + locals, length);
  }

  lemma ApartAcross(selected: seq<Span>, locals: seq<Span>, i: nat, j: nat)
    requires PairwiseApart(selected + locals) && Stacked(Sort(selected)) && i < j < |Sort(selected) + locals|
    ensures Apart((Sort(selected) + locals)[i], (Sort(selected) + locals)[j])
  {
    var ranges := Sort(selected);
    if j < |ranges| {
      assert ranges[i].last < ranges[j].first;
    } else if i < |ranges| {
      ApartBoth(selected, locals, ranges[i], j - |ranges|);
    } else {
      ApartLocals(selected, locals, i - |ranges|, j - |ranges|);
    }
  }

  lemma ApartBoth(selected: seq<Span>, locals: seq<Span>, x: Span, j: nat)
    requires PairwiseApart(selected + locals) && x in multiset(Sort(selected)) && j < |locals|
    ensures Apart(x, locals[j])
  {
    var both := selected + locals;
    assert x in multiset(selected);
    var k :| 0 <= k < |selected| && selected[k] == x;
    assert both[k] == x && both[|selected| + j] == locals[j];
  }

  lemma ApartLocals(selected: seq<Span>, locals: seq<Span>, i: nat, j: nat)
    requires PairwiseApart(selected + locals) && i < j < |locals|
    ensures Apart(locals[i], locals[j])
  {
    var both := selected + locals;
    assert both[|selected| + i] == locals[i] && both[|selected| + j] == locals[j];
  }

  lemma SameCover(length: nat, a: seq<Span>, b: seq<Span>)
    requires multiset(a) == multiset(b)
    ensures Cover(length, a) == Cover(length, b)
  {
    forall i | 0 <= i < length
      ensures Cover(length, a)[i] == Cover(length, b)[i]
    {
      if Covered(i + 1, a) {
        CoveredIn(i + 1, a, b);
      }
      if Covered(i + 1, b) {
        CoveredIn(i + 1, b, a);
      }
    }
  }

  lemma CoveredIn(number: nat, a: seq<Span>, b: seq<Span>)
    requires multiset(a) == multiset(b) && Covered(number, a)
    ensures Covered(number, b)
  {
    var k :| 0 <= k < |a| && In(number, a[k]);
    assert a[k] in multiset(b);
    var l :| 0 <= l < |b| && b[l] == a[k];
    assert In(number, b[l]);
  }

  // ---- spans that may overlap ----------------------------------------------

  /** In order of their first line, and not empty. */
  ghost predicate InOrder(spans: seq<Span>)
  {
    && (forall i :: 0 <= i < |spans| ==> 1 <= spans[i].first <= spans[i].last)
    && (forall i, j :: 0 <= i < j < |spans| ==> spans[i].first <= spans[j].first)
  }

  /** The first `k` flags that are false become true. */
  function Fill(mask: seq<bool>, k: nat): (r: seq<bool>)
    ensures |r| == |mask|
  {
    if mask == [] || k == 0 then mask
    else [true] + Fill(mask[1..], if mask[0] then k else k - 1)
  }

  function NoneOf(n: nat): (mask: seq<bool>)
    ensures |mask| == n && forall i :: 0 <= i < n ==> !mask[i]
  {
    seq(n, i => false)
  }

  /** Which of `n` lines the deletions really take: each takes as many lines as its span
      is long, counted from its first line over those still there. */
  function Taken(n: nat, spans: seq<Span>): (mask: seq<bool>)
    ensures |mask| == n
  {
    if spans == [] then NoneOf(n)
    else TakenToo(Taken(n, spans[1..]), spans[0])
  }

  function TakenToo(mask: seq<bool>, x: Span): (r: seq<bool>)
    ensures |r| == |mask|
  {
    if 1 <= x.first <= x.last && x.first <= |mask| then mask[..x.first - 1] + Fill(mask[x.first - 1..], x.last + 1 - x.first)
    else mask
  }

  lemma {:induction false} KeepFilled<T>(s: seq<T>, mask: seq<bool>, k: nat)
    requires |s| == |mask|
    ensures KeepBy(s, Fill(mask, k)) == KeepBy(s, mask)[AtMost(k, |KeepBy(s, mask)|)..]
  {
    if s != [] && k > 0 {
      KeepFilled(s[1..], mask[1..], if mask[0] then k else k - 1);
      assert ([true] + Fill(mask[1..], if mask[0] then k else k - 1))[1..] == Fill(mask[1..], if mask[0] then k else k - 1);
    }
  }

  /** Before the first span nothing is taken. */
  lemma {:induction false} TakenLater(n: nat, spans: seq<Span>, i: nat)
    requires InOrder(spans) && i < n && forall k :: 0 <= k < |spans| ==> i + 1 < spans[k].first
    ensures !Taken(n, spans)[i]
  {
    if spans != [] {
      InOrderTail(spans);
      TakenLater(n, spans[1..], i);
    }
  }

  lemma InOrderTail(spans: seq<Span>)
    requires InOrder(spans) && spans != []
    ensures InOrder(spans[1..]) && forall k :: 0 <= k < |spans| - 1 ==> spans[0].first <= spans[1..][k].first
  {
    forall k | 0 <= k < |spans| - 1
      ensures spans[1..][k] == spans[k + 1] && spans[0].first <= spans[k + 1].first
    {
    }
  }

  lemma DeletedLast<T>(lines: seq<T>, spans: seq<Span>, x: Span)
    ensures DeletedAll(lines, spans + [x]) == DeletedAll(Deleted(lines, x), spans)
  {
    assert (spans + [x])[..|spans|] == spans;
  }

  lemma {:induction false} DeletedFirst<T>(lines: seq<T>, x: Span, rest: seq<Span>)
    ensures DeletedAll(lines, [x] + rest) == Deleted(DeletedAll(lines, rest), x)
    decreases |rest|
  {
    if rest == [] {
      assert [x] + rest == [] + [x];
      DeletedLast(lines, [], x);
    } else {
      var init, last := rest[..|rest| - 1], rest[|rest| - 1];
      assert rest == init + [last] && [x] + rest == ([x] + init) + [last];
      DeletedLast(lines, init, last);
      DeletedLast(lines, [x] + init, last);
      DeletedFirst(Deleted(lines, last), x, init);
    }
  }

  /** Deleting takes exactly those lines. */
  lemma {:induction false} DeletionTakes<T>(lines: seq<T>, spans: seq<Span>)
    requires InOrder(spans) && Within(spans, |lines|)
    ensures DeletedAll(lines, spans) == KeepBy(lines, Taken(|lines|, spans))
  {
    if spans == [] {
      AllKept(lines, NoneOf(|lines|));
    } else {
      var x, rest := spans[0], spans[1..];
      InOrderTail(spans);
      assert Within(rest, |lines|) by {
        assert forall k :: 0 <= k < |rest| ==> rest[k] == spans[k + 1];
      }
      DeletionTakes(lines, rest);
      assert spans == [x] + rest;
      DeletedFirst(lines, x, rest);
      var mask, f := Taken(|lines|, rest), x.first - 1;
      forall i | 0 <= i < f
        ensures !mask[i]
      {
        TakenLater(|lines|, rest, i);
      }
      DeletedTail(lines, mask, x);
    }
  }

  lemma DeletedTail<T>(lines: seq<T>, mask: seq<bool>, x: Span)
    requires |mask| == |lines| && 1 <= x.first <= x.last <= |lines|
    requires forall i :: 0 <= i < x.first - 1 ==> !mask[i]
    ensures KeepBy(lines, TakenToo(mask, x)) == Deleted(KeepBy(lines, mask), x)
  {
    var f := x.first - 1;
    assert lines == lines[..f] + lines[f..] && mask == mask[..f] + mask[f..];
    DeletedJoin(lines[..f], lines[f..], mask[..f], mask[f..], x);
  }

  lemma DeletedJoin<T>(head: seq<T>, tail: seq<T>, none: seq<bool>, mask: seq<bool>, x: Span)
    requires 1 <= x.first <= x.last && |head| == |none| == x.first - 1 && |tail| == |mask|
    requires forall i :: 0 <= i < |none| ==> !none[i]
    ensures KeepBy(head + tail, none + Fill(mask, x.last + 1 - x.first)) == Deleted(KeepBy(head + tail, none + mask), x)
  {
    var k := x.last + 1 - x.first;
    AllKept(head, none);
    KeepJoin(head, tail, none, mask);
    KeepJoin(head, tail, none, Fill(mask, k));
    KeepFilled(tail, mask, k);
    DropAfter(head, KeepBy(tail, mask), x);
  }

  lemma DropAfter<T>(head: seq<T>, tail: seq<T>, x: Span)
    requires 1 <= x.first <= x.last && |head| == x.first - 1
    ensures Deleted(head + tail, x) == head + tail[AtMost(x.last + 1 - x.first, |tail|)..]
  {
  }

  // ---- no covered line stays -----------------------------------------------

  lemma {:induction false} FillKeepsTrue(mask: seq<bool>, k: nat, i: nat)
    requires i < |mask| && (mask[i] || i < k)
    ensures Fill(mask, k)[i]
  {
    if k > 0 && i > 0 {
      FillKeepsTrue(mask[1..], if mask[0] then k else k - 1, i - 1);
    }
  }

  lemma {:induction false} CoveredIsTaken(n: nat, spans: seq<Span>, i: nat)
    requires InOrder(spans) && i < n && Covered(i + 1, spans)
    ensures Taken(n, spans)[i]
  {
    var x, rest := spans[0], spans[1..];
    InOrderTail(spans);
    var k :| 0 <= k < |spans| && In(i + 1, spans[k]);
    if k > 0 {
      assert rest[k - 1] == spans[k];
      CoveredIsTaken(n, rest, i);
    }
    if x.first <= n && i >= x.first - 1 {
      FillKeepsTrue(Taken(n, rest)[x.first - 1..], x.last + 1 - x.first, i - (x.first - 1));
    }
  }

  /** Keeping by two masks, one within the other, gives the same only for the same mask. */
  lemma {:induction false} SameKept<T>(s: seq<T>, a: seq<bool>, b: seq<bool>)
    requires |s| == |a| == |b| && forall i :: 0 <= i < |a| ==> a[i] ==> b[i]
    ensures |KeepBy(s, b)| <= |KeepBy(s, a)|
    ensures |KeepBy(s, b)| == |KeepBy(s, a)| ==> a == b
  {
    if s != [] {
      SameKept(s[1..], a[1..], b[1..]);
      assert a == [a[0]] + a[1..] && b == [b[0]] + b[1..];
    }
  }

  // ---- when a line too many goes -------------------------------------------

  /** Spans `i` and `j` share a line, and line `u` after both is in no span. */
  predicate LosesAt(n: nat, spans: seq<Span>, i: nat, j: nat, u: nat)
  {
    i < j < |spans| && !Apart(spans[i], spans[j]) && spans[j].first < u <= n && !Covered(u, spans)
  }

  ghost predicate LosesALine(n: nat, spans: seq<Span>)
  {
    exists i: nat, j: nat, u: nat :: LosesAt(n, spans, i, j, u)
  }

  function Trues(mask: seq<bool>): (n: nat)
  {
    if mask == [] then 0 else (if mask[0] then 1 else 0) + Trues(mask[1..])
  }

  lemma {:induction false} TruesJoin(a: seq<bool>, b: seq<bool>)
    ensures Trues(a + b) == Trues(a) + Trues(b)
  {
    if a == [] {
      assert a + b == b;
    } else {
      var tail := a[1..];
      TruesJoin(tail, b);
      assert (a + b)[1..] == tail + b;
    }
  }

  /** Unless it reaches the end, filling adds what it is asked to. */
  lemma {:induction false} FillAdds(mask: seq<bool>, k: nat)
    requires mask != [] && !Fill(mask, k)[|mask| - 1]
    ensures Trues(Fill(mask, k)) == Trues(mask) + k && !mask[|mask| - 1]
  {
    if k > 0 {
      var more := if mask[0] then k else k - 1;
      if |mask| > 1 {
        FillAdds(mask[1..], more);
        assert ([true] + Fill(mask[1..], more))[1..] == Fill(mask[1..], more);
      }
    }
  }

  lemma {:induction false} FillPrefix(mask: seq<bool>, k: nat, n: nat)
    requires n <= |mask|
    ensures Fill(mask, k)[..n] == Fill(mask[..n], k)
  {
    if mask != [] && k > 0 && n > 0 {
      var more := if mask[0] then k else k - 1;
      FillPrefix(mask[1..], more, n - 1);
      assert mask[..n][1..] == mask[1..][..n - 1];
      assert ([true] + Fill(mask[1..], more))[..n] == [true] + Fill(mask[1..], more)[..n - 1];
    }
  }

  /** What is taken up to line `u` does not depend on the lines after it. */
  lemma {:induction false} TakenPrefix(n: nat, spans: seq<Span>, u: nat)
    requires u <= n
    ensures Taken(n, spans)[..u] == Taken(u, spans)
  {
    if spans != [] {
      TakenPrefix(n, spans[1..], u);
      TakenTooPrefix(Taken(n, spans[1..]), spans[0], u);
    }
  }

  lemma TakenTooPrefix(mask: seq<bool>, x: Span, u: nat)
    requires u <= |mask|
    ensures TakenToo(mask, x)[..u] == TakenToo(mask[..u], x)
  {
    if 1 <= x.first <= x.last && x.first <= u {
      var f := x.first - 1;
      FillPrefix(mask[f..], x.last - f, u - f);
      assert mask[..u][f..] == mask[f..][..u - f] && mask[..u][..f] == mask[..f];
    }
  }

  /** The lengths of the spans that begin by line `u`, added up. */
  function Total(u: nat, spans: seq<Span>): (n: nat)
  {
    if spans == [] then 0 else (if 1 <= spans[0].first <= spans[0].last && spans[0].first <= u
                                then spans[0].last + 1 - spans[0].first else 0) + Total(u, spans[1..])
  }

  /** If line `u` stays, every deletion took before it as many lines as it should. */
  lemma {:induction false} TakesTotal(u: nat, spans: seq<Span>)
    requires u > 0 && !Taken(u, spans)[u - 1]
    ensures Trues(Taken(u, spans)) == Total(u, spans)
  {
    if spans == [] {
      NoTrues(NoneOf(u));
    } else {
      var x, mask := spans[0], Taken(u, spans[1..]);
      if 1 <= x.first <= x.last && x.first <= u {
        var f := x.first - 1;
        FillAdds(mask[f..], x.last - f);
        TruesJoin(mask[..f], mask[f..]);
        TruesJoin(mask[..f], Fill(mask[f..], x.last - f));
        assert mask[..f] + mask[f..] == mask;
      }
      TakesTotal(u, spans[1..]);
    }
  }

  lemma {:induction false} NoTrues(mask: seq<bool>)
    requires forall i :: 0 <= i < |mask| ==> !mask[i]
    ensures Trues(mask) == 0
  {
    if mask != [] {
      NoTrues(mask[1..]);
    }
  }

  // ---- covered lines, counted ----------------------------------------------

  lemma CoveredCons(number: nat, spans: seq<Span>)
    requires spans != []
    ensures Covered(number, spans) <==> In(number, spans[0]) || Covered(number, spans[1..])
  {
    if Covered(number, spans) {
      var k :| 0 <= k < |spans| && In(number, spans[k]);
      assert k > 0 ==> spans[1..][k - 1] == spans[k];
    }
    if Covered(number, spans[1..]) {
      var k :| 0 <= k < |spans| - 1 && In(number, spans[1..][k]);
      assert In(number, spans[k + 1]);
    }
    if In(number, spans[0]) {
      assert Covered(number, spans);
    }
  }

  function LinesOf(u: nat, x: Span): (mask: seq<bool>)
  {
    seq(u, i requires 0 <= i < u => In(i + 1, x))
  }

  lemma {:induction false} AllTrue(mask: seq<bool>)
    requires forall i :: 0 <= i < |mask| ==> mask[i]
    ensures Trues(mask) == |mask|
  {
    if mask != [] {
      AllTrue(mask[1..]);
    }
  }

  lemma LinesCount(u: nat, x: Span)
    requires 1 <= x.first <= x.last < u
    ensures Trues(LinesOf(u, x)) == x.last + 1 - x.first
  {
    var mask, f, l := LinesOf(u, x), x.first - 1, x.last;
    assert mask == mask[..f] + (mask[f..l] + mask[l..]);
    OnlyMiddle(mask[..f], mask[f..l], mask[l..]);
  }

  lemma OnlyMiddle(before: seq<bool>, middle: seq<bool>, after: seq<bool>)
    requires forall i :: 0 <= i < |before| ==> !before[i]
    requires forall i :: 0 <= i < |middle| ==> middle[i]
    requires forall i :: 0 <= i < |after| ==> !after[i]
    ensures Trues(before + (middle + after)) == |middle|
  {
    TruesJoin(before, middle + after);
    TruesJoin(middle, after);
    NoTrues(before);
    AllTrue(middle);
    NoTrues(after);
  }

  /** Flags of either mask: fewer than both together if some flag is in both. */
  lemma {:induction false} EitherCount(a: seq<bool>, b: seq<bool>, either: seq<bool>)
    requires |a| == |b| == |either| && forall i :: 0 <= i < |a| ==> either[i] == (a[i] || b[i])
    ensures Trues(either) <= Trues(a) + Trues(b)
    ensures (exists i :: 0 <= i < |a| && a[i] && b[i]) ==> Trues(either) < Trues(a) + Trues(b)
  {
    if a != [] {
      EitherCount(a[1..], b[1..], either[1..]);
      if i :| 0 <= i < |a| && a[i] && b[i] {
        assert i > 0 ==> a[1..][i - 1] && b[1..][i - 1];
      }
    }
  }

  /** Spans `i` and `j` share a line before line `u`. */
  predicate Overlap(spans: seq<Span>, i: nat, j: nat, u: nat)
  {
    i < j < |spans| && !Apart(spans[i], spans[j]) && spans[j].first < u
  }

  /** Before a line no span covers, spans are no shorter than the lines they cover, and
      longer if two of them overlap. */
  lemma {:induction false} OverlapCosts(u: nat, spans: seq<Span>)
    requires InOrder(spans) && u > 0 && !Covered(u, spans)
    ensures Trues(Cover(u, spans)) <= Total(u, spans)
    ensures (exists i: nat, j: nat :: Overlap(spans, i, j, u)) ==> Trues(Cover(u, spans)) < Total(u, spans)
  {
    if spans == [] {
      NoTrues(Cover(u, spans));
    } else {
      var x, rest := spans[0], spans[1..];
      InOrderTail(spans);
      CoveredCons(u, spans);
      OverlapCosts(u, rest);
      OneSpanMore(u, x, rest);
      assert [x] + rest == spans;
      if i: nat, j: nat :| Overlap(spans, i, j, u) {
        if i > 0 {
          assert Overlap(rest, i - 1, j - 1, u);
        } else {
          assert rest[j - 1] == spans[j] && SharesLine(u, x, rest, j - 1);
        }
      }
    }
  }

  predicate SharesLine(u: nat, x: Span, rest: seq<Span>, k: nat)
  {
    k < |rest| && In(rest[k].first, x) && rest[k].first < u
  }

  lemma OneSpanMore(u: nat, x: Span, rest: seq<Span>)
    requires InOrder([x] + rest) && u > 0 && !In(u, x)
    ensures Trues(Cover(u, [x] + rest)) <= Total(u, [x]) + Trues(Cover(u, rest))
    ensures (exists k: nat :: SharesLine(u, x, rest, k)) ==>
              Trues(Cover(u, [x] + rest)) < Total(u, [x]) + Trues(Cover(u, rest))
  {
    var spans := [x] + rest;
    assert spans[0] == x && spans[1..] == rest && [x][1..] == [];
    CoverCons(u, spans);
    EitherCount(LinesOf(u, x), Cover(u, rest), Cover(u, spans));
    if x.first < u {
      LinesCount(u, x);
    } else {
      NoTrues(LinesOf(u, x));
    }
    if k: nat :| SharesLine(u, x, rest, k) {
      InOrderAt(x, rest, k);
      assert In(rest[k].first, rest[k]);
      assert LinesOf(u, x)[rest[k].first - 1] && Cover(u, rest)[rest[k].first - 1];
    }
  }

  lemma InOrderAt(x: Span, rest: seq<Span>, k: nat)
    requires InOrder([x] + rest) && k < |rest|
    ensures 1 <= rest[k].first <= rest[k].last
  {
    assert ([x] + rest)[k + 1] == rest[k];
  }

  // ---- exactly when deleting is right --------------------------------------

  /** Spans that do not overlap before `u` take what they cover. */
  lemma {:induction false} ApartTakesCover(u: nat, spans: seq<Span>)
    requires InOrder(spans) && u > 0 && !Covered(u, spans) && NoOverlap(spans, u)
    ensures Taken(u, spans) == Cover(u, spans)
  {
    if spans != [] {
      InOrderTail(spans);
      CoveredCons(u, spans);
      TailStaysApart(u, spans);
      ApartTakesCover(u, spans[1..]);
      FirstTakesItsLines(Taken(u, spans[1..]), spans[0]);
      CoverCons(u, spans);
    }
  }

  ghost predicate NoOverlap(spans: seq<Span>, u: nat)
  {
    forall i: nat, j: nat :: !Overlap(spans, i, j, u)
  }

  lemma TailStaysApart(u: nat, spans: seq<Span>)
    requires InOrder(spans) && spans != [] && u > 0 && !In(u, spans[0]) && NoOverlap(spans, u)
    ensures NoOverlap(spans[1..], u)
    ensures spans[0].first < u ==> forall p :: 0 <= p < spans[0].last ==> !Cover(u, spans[1..])[p]
  {
    forall i: nat, j: nat
      ensures !Overlap(spans[1..], i, j, u)
    {
      assert !Overlap(spans, i + 1, j + 1, u);
    }
    if spans[0].first < u {
      forall p | 0 <= p < spans[0].last
        ensures !Cover(u, spans[1..])[p]
      {
        FirstIsApart(u, spans, p);
      }
    }
  }

  lemma CoverCons(u: nat, spans: seq<Span>)
    requires spans != []
    ensures forall i :: 0 <= i < u ==> Cover(u, spans)[i] == (In(i + 1, spans[0]) || Cover(u, spans[1..])[i])
  {
    forall i | 0 <= i < u
      ensures Cover(u, spans)[i] == (In(i + 1, spans[0]) || Cover(u, spans[1..])[i])
    {
      CoveredCons(i + 1, spans);
    }
  }

  lemma FirstTakesItsLines(mask: seq<bool>, x: Span)
    requires 1 <= x.first <= x.last && !In(|mask|, x)
    requires x.first < |mask| ==> forall p :: 0 <= p < x.last ==> !mask[p]
    ensures forall i :: 0 <= i < |mask| ==> TakenToo(mask, x)[i] == (In(i + 1, x) || mask[i])
  {
    if x.first < |mask| {
      TakesFresh(mask, x);
    }
  }

  lemma FirstIsApart(u: nat, spans: seq<Span>, p: nat)
    requires InOrder(spans) && spans != [] && spans[0].last < u && p < spans[0].last
    requires forall j: nat :: !Overlap(spans, 0, j, u)
    ensures !Covered(p + 1, spans[1..])
  {
    forall k | 0 <= k < |spans| - 1
      ensures !In(p + 1, spans[1..][k])
    {
      assert spans[1..][k] == spans[k + 1];
      assert !Overlap(spans, 0, k + 1, u);
    }
  }

  lemma TakesFresh(mask: seq<bool>, x: Span)
    requires 1 <= x.first <= x.last <= |mask| && forall p :: 0 <= p < x.last ==> !mask[p]
    ensures forall i :: 0 <= i < |mask| ==> TakenToo(mask, x)[i] == (In(i + 1, x) || mask[i])
  {
    FillFresh(mask[x.first - 1..], x.last + 1 - x.first);
  }

  lemma {:induction false} FillFresh(mask: seq<bool>, k: nat)
    requires k <= |mask| && forall i :: 0 <= i < k ==> !mask[i]
    ensures forall i :: 0 <= i < |mask| ==> Fill(mask, k)[i] == (i < k || mask[i])
  {
    if k > 0 {
      FillFresh(mask[1..], k - 1);
    }
  }

  /** A line no span covers stays as long as no two spans before it overlap ... */
  lemma UncoveredStays(n: nat, spans: seq<Span>, i: nat)
    requires InOrder(spans) && i < n && !Covered(i + 1, spans) && !LosesALine(n, spans)
    ensures !Taken(n, spans)[i]
  {
    var u := i + 1;
    forall a: nat, b: nat
      ensures !Overlap(spans, a, b, u)
    {
      assert !LosesAt(n, spans, a, b, u);
    }
    ApartTakesCover(u, spans);
    TakenPrefix(n, spans, u);
    assert Taken(n, spans)[i] == Taken(n, spans)[..u][i] == Cover(u, spans)[i];
  }

  /** ... and one too many goes if two do. */
  lemma OverlapTakesMore(n: nat, spans: seq<Span>, i: nat, j: nat, u: nat)
    requires InOrder(spans) && LosesAt(n, spans, i, j, u)
    ensures Taken(n, spans) != Cover(n, spans)
  {
    if Taken(n, spans) == Cover(n, spans) {
      TakenPrefix(n, spans, u);
      assert Cover(n, spans)[..u] == Cover(u, spans);
      TakesTotal(u, spans);
      OverlapCosts(u, spans);
      assert Overlap(spans, i, j, u);
    }
  }

  lemma CoverIsTaken(n: nat, spans: seq<Span>)
    requires InOrder(spans)
    ensures forall i :: 0 <= i < n ==> Cover(n, spans)[i] ==> Taken(n, spans)[i]
  {
    forall i | 0 <= i < n && Covered(i + 1, spans)
      ensures Taken(n, spans)[i]
    {
      CoveredIsTaken(n, spans, i);
    }
  }

  lemma TakesCover(n: nat, spans: seq<Span>)
    requires InOrder(spans)
    ensures Taken(n, spans) == Cover(n, spans) <==> !LosesALine(n, spans)
  {
    if LosesALine(n, spans) {
      var i: nat, j: nat, u: nat :| LosesAt(n, spans, i, j, u);
      OverlapTakesMore(n, spans, i, j, u);
    } else {
      CoverIsTaken(n, spans);
      forall i | 0 <= i < n && !Covered(i + 1, spans)
        ensures !Taken(n, spans)[i]
      {
        UncoveredStays(n, spans, i);
      }
      assert Taken(n, spans) == Cover(n, spans);
    }
  }

  /** Deleting spans from the last to the first leaves exactly the lines no span covers
      if and only if no such line comes after two spans that share a line. */
  lemma DeletionIsExact<T>(lines: seq<T>, spans: seq<Span>)
    requires InOrder(spans) && Within(spans, |lines|)
    ensures DeletedAll(lines, spans) == KeepBy(lines, Cover(|lines|, spans)) <==> !LosesALine(|lines|, spans)
  {
    var n := |lines|;
    DeletionTakes(lines, spans);
    CoverIsTaken(n, spans);
    SameKept(lines, Cover(n, spans), Taken(n, spans));
    TakesCover(n, spans);
  }

  // ---- sorting puts them in order ------------------------------------------

  lemma {:induction false} InsertOrders(x: Span, spans: seq<Span>)
    requires InOrder(spans) && 1 <= x.first <= x.last
    ensures InOrder(Insert(x, spans))
  {
    if spans != [] && !NotAfter(x, spans[0]) {
      InOrderTail(spans);
      InsertOrders(x, spans[1..]);
      var rest := Insert(x, spans[1..]);
      forall j | 0 <= j < |rest|
        ensures spans[0].first <= rest[j].first
      {
        InOrNot(x, spans[1..], rest[j]);
      }
    }
  }

  lemma {:induction false} SortOrders(spans: seq<Span>, length: nat)
    requires Within(spans, length)
    ensures InOrder(Sort(spans)) && Within(Sort(spans), length)
  {
    if spans != [] {
      SortOrders(spans[1..], length);
      InsertOrders(spans[0], Sort(spans[1..]));
    }
    forall i | 0 <= i < |Sort(spans)|
      ensures 1 <= Sort(spans)[i].first <= Sort(spans)[i].last <= length
    {
      assert Sort(spans)[i] in multiset(spans);
    }
  }
}
