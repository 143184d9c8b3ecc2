/** Pricing a transcript and fitting it into the provider window
    (core/context.py, prepare / estimate_input_budget / _compact). */
module ContextWindow {
  import opened Common
  import opened Transcript
  import opened AtomicGroups
  import opened SummaryFacts
  import opened Compaction
  import opened CompactionRounds
  import opened HistoryTurns
  import opened TurnHistory
  import opened SessionPins
  import opened CompactionReceipt

  // ---- prices --------------------------------------------------------------

  datatype Bucket =
    | StaticSystem | RuntimeInstruction | ProjectContext | SessionHistory
    | WorkingMemory | CurrentTurn | ToolCatalog

  /** Collaborators: prompt assembly, the read-result projection (when a task id is
      given), JSON sizes in bytes and image prices. */
  datatype Environment = Environment(
    assemble: seq<Message> -> seq<Message>,
    reuse: Option<seq<Message> -> seq<Message>>,
    jsonBytes: Message -> nat,
    imageTokens: Message -> nat,
    toolBytes: seq<nat>,
    digest: Digest)

  datatype Manager = Manager(triggerRatio: real, floor: nat, latency: nat, ceiling: nat, softHistory: nat)

  predicate ValidManager(m: Manager)
  {
    0.0 < m.triggerRatio < 1.0 && 1 <= m.floor <= m.ceiling
  }

  function JsonTokens(bytes: nat): (tokens: nat)
    ensures tokens >= 1 && 4 * tokens >= bytes
    ensures tokens > 1 ==> 4 * (tokens - 1) < bytes
  {
    if bytes == 0 then 1 else (bytes + 3) / 4
  }

  function BucketOf(m: Message): Bucket
  {
    if HasPrefix(m.id, "prompt-runtime-") then RuntimeInstruction
    else if HasPrefix(m.id, "tool-catalog-context-") then ToolCatalog
    else if AnyPrefix(m.id, ["task-spec-context-", "conversation-environment-context-"]) then ProjectContext
    else if m.role == System then StaticSystem
    else if AnyPrefix(m.id, ["project-onboarding-context-", "project-memory-context-"]) then ProjectContext
    else if AnyPrefix(m.id, [SESSION_PREFIX, "session-history-", "session-facts-"]) then SessionHistory
    else if AnyPrefix(m.id, ["working-memory-context-", "execution-context-"]) then WorkingMemory
    else CurrentTurn
  }

  function MessageCost(env: Environment, m: Message): nat
  {
    JsonTokens(env.jsonBytes(m)) + 4
  }

  function SumIn(env: Environment, messages: seq<Message>, b: Bucket): (total: nat)
  {
    if messages == [] then 0
    else
      var n := |messages| - 1;
      SumIn(env, messages[..n], b) + if BucketOf(messages[n]) == b then MessageCost(env, messages[n]) else 0
  }

  function SumAll(env: Environment, messages: seq<Message>): (total: nat)
  {
    if messages == [] then 0
    else SumAll(env, messages[..|messages| - 1]) + MessageCost(env, messages[|messages| - 1])
  }

  function SumImages(env: Environment, messages: seq<Message>): (total: nat)
  {
    if messages == [] then 0
    else SumImages(env, messages[..|messages| - 1]) + env.imageTokens(messages[|messages| - 1])
  }

  function SumTools(tools: seq<nat>): (total: nat)
  {
    if tools == [] then 0 else SumTools(tools[..|tools| - 1]) + JsonTokens(tools[|tools| - 1]) + 2
  }

  /** Every message is priced in exactly one bucket. */
  lemma {:induction false} BucketsPartition(env: Environment, messages: seq<Message>)
    ensures SumIn(env, messages, StaticSystem) + SumIn(env, messages, RuntimeInstruction)
          + SumIn(env, messages, ProjectContext) + SumIn(env, messages, SessionHistory)
          + SumIn(env, messages, WorkingMemory) + SumIn(env, messages, CurrentTurn)
          + SumIn(env, messages, ToolCatalog) == SumAll(env, messages)
  {
    if messages != [] {
      BucketsPartition(env, messages[..|messages| - 1]);
    }
  }

  /** The price of messages exactly as given. */
  function PriceOf(env: Environment, messages: seq<Message>): (tokens: nat)
  {
    var assembled := env.assemble(messages);
    SumAll(env, assembled) + SumImages(env, assembled) + SumTools(env.toolBytes) + 8
  }

  // ---- what a price means --------------------------------------------------

  /** The least number of tokens of four bytes each, and at least one. */
  ghost predicate LeastTokens(t: nat, bytes: nat)
  {
    t >= 1 && 4 * t >= bytes && forall u: nat :: u >= 1 && 4 * u >= bytes ==> t <= u
  }

  ghost predicate AddsMessage(env: Environment, m: Message, before: nat, after: nat)
  {
    exists t: nat :: LeastTokens(t, env.jsonBytes(m)) && after == before + t + 4 + env.imageTokens(m)
  }

  ghost predicate AddsTool(bytes: nat, before: nat, after: nat)
  {
    exists t: nat :: LeastTokens(t, bytes) && after == before + t + 2
  }

  /** Counting from 8, every message of the view and then every tool adds its price. */
  ghost predicate IsEstimate(env: Environment, view: seq<Message>, estimated: nat)
  {
    exists running: seq<nat> :: Counts(env, view, running) && estimated == running[|view| + |env.toolBytes|]
  }

  ghost predicate Counts(env: Environment, view: seq<Message>, running: seq<nat>)
  {
    && |running| == |view| + |env.toolBytes| + 1 && running[0] == 8
    && (forall i :: 0 <= i < |view| ==> AddsMessage(env, view[i], running[i], running[i + 1]))
    && (forall i :: 0 <= i < |env.toolBytes| ==>
          AddsTool(env.toolBytes[i], running[|view| + i], running[|view| + i + 1]))
  }

  /** Messages of the session history, by their names. */
  predicate IsHistory(m: Message)
  {
    m.role != System
    && ("session-context-" <= m.id || "session-history-" <= m.id || "session-facts-" <= m.id)
  }

  /** Counting from 0, every history message adds its price without images. */
  ghost predicate IsHistoryShare(env: Environment, view: seq<Message>, share: nat)
  {
    exists running: seq<nat> :: CountsShares(env, view, running) && share == running[|view|]
  }

  ghost predicate CountsShares(env: Environment, view: seq<Message>, running: seq<nat>)
  {
    && |running| == |view| + 1 && running[0] == 0
    && forall i :: 0 <= i < |view| ==> AddsShare(env, view[i], running[i], running[i + 1])
  }

  ghost predicate AddsShare(env: Environment, m: Message, before: nat, after: nat)
  {
    if IsHistory(m) then exists t: nat :: LeastTokens(t, env.jsonBytes(m)) && after == before + t + 4
    else after == before
  }

  /** The view has `n` JSON bytes. */
  ghost predicate HasBytes(env: Environment, view: seq<Message>, n: nat)
  {
    exists running: seq<nat> :: CountsBytes(env, view, running) && n == running[|view|]
  }

  ghost predicate CountsBytes(env: Environment, view: seq<Message>, running: seq<nat>)
  {
    && |running| == |view| + 1 && running[0] == 0
    && forall i :: 0 <= i < |view| ==> running[i + 1] == running[i] + env.jsonBytes(view[i])
  }

  lemma JsonTokensAreLeast(bytes: nat)
    ensures LeastTokens(JsonTokens(bytes), bytes)
  {
  }

  function PriceUpTo(env: Environment, view: seq<Message>, i: nat): (tokens: nat)
    requires i <= |view|
  {
    SumAll(env, view[..i]) + SumImages(env, view[..i]) + 8
  }

  lemma PriceStep(env: Environment, view: seq<Message>, i: nat)
    requires i < |view|
    ensures AddsMessage(env, view[i], PriceUpTo(env, view, i), PriceUpTo(env, view, i + 1))
  {
    assert view[..i + 1][..i] == view[..i];
    JsonTokensAreLeast(env.jsonBytes(view[i]));
  }

  lemma ToolStep(env: Environment, i: nat, base: nat)
    requires i < |env.toolBytes|
    ensures AddsTool(env.toolBytes[i], base + SumTools(env.toolBytes[..i]), base + SumTools(env.toolBytes[..i + 1]))
  {
    assert env.toolBytes[..i + 1][..i] == env.toolBytes[..i];
    JsonTokensAreLeast(env.toolBytes[i]);
  }

  lemma {:induction false} CountMessages(env: Environment, view: seq<Message>, n: nat) returns (running: seq<nat>)
    requires n <= |view|
    ensures |running| == n + 1 && running[0] == 8 && running[n] == PriceUpTo(env, view, n)
    ensures forall i :: 0 <= i < n ==> AddsMessage(env, view[i], running[i], running[i + 1])
  {
    if n == 0 {
      running := [8];
    } else {
      var before := CountMessages(env, view, n - 1);
      running := before + [PriceUpTo(env, view, n)];
      PriceStep(env, view, n - 1);
    }
  }

  lemma {:induction false} CountTools(env: Environment, view: seq<Message>, n: nat) returns (running: seq<nat>)
    requires n <= |env.toolBytes|
    ensures |running| == |view| + n + 1 && running[0] == 8
    ensures running[|view| + n] == PriceUpTo(env, view, |view|) + SumTools(env.toolBytes[..n])
    ensures forall i :: 0 <= i < |view| ==> AddsMessage(env, view[i], running[i], running[i + 1])
    ensures forall i :: 0 <= i < n ==> AddsTool(env.toolBytes[i], running[|view| + i], running[|view| + i + 1])
  {
    if n == 0 {
      running := CountMessages(env, view, |view|);
    } else {
      var before := CountTools(env, view, n - 1);
      var base := PriceUpTo(env, view, |view|);
      running := before + [base + SumTools(env.toolBytes[..n])];
      ToolStep(env, n - 1, base);
    }
  }

  /** The price is the estimate. */
  lemma PriceIsEstimate(env: Environment, messages: seq<Message>)
    ensures IsEstimate(env, env.assemble(messages), PriceOf(env, messages))
  {
    var view, tools := env.assemble(messages), env.toolBytes;
    var running := CountTools(env, view, |tools|);
    assert view[..|view|] == view && tools[..|tools|] == tools;
    assert Counts(env, view, running);
  }

  lemma HistoryBucket(m: Message)
    ensures BucketOf(m) == SessionHistory <==> IsHistory(m)
  {
    if IsHistory(m) {
      assert m.id[0] == 's';
      assert !AnyPrefix(m.id, ["task-spec-context-", "conversation-environment-context-"]);
      assert !AnyPrefix(m.id, ["project-onboarding-context-", "project-memory-context-"]);
      assert SESSION_PREFIX in [SESSION_PREFIX, "session-history-", "session-facts-"];
      assert "session-history-" in [SESSION_PREFIX, "session-history-", "session-facts-"];
      assert "session-facts-" in [SESSION_PREFIX, "session-history-", "session-facts-"];
    }
  }

  lemma ShareStep(env: Environment, view: seq<Message>, i: nat)
    requires i < |view|
    ensures AddsShare(env, view[i], SumIn(env, view[..i], SessionHistory), SumIn(env, view[..i + 1], SessionHistory))
  {
    assert view[..i + 1][..i] == view[..i];
    JsonTokensAreLeast(env.jsonBytes(view[i]));
    HistoryBucket(view[i]);
  }

  lemma {:induction false} CountShares(env: Environment, view: seq<Message>, n: nat) returns (running: seq<nat>)
    requires n <= |view|
    ensures |running| == n + 1 && running[0] == 0 && running[n] == SumIn(env, view[..n], SessionHistory)
    ensures forall i :: 0 <= i < n ==> AddsShare(env, view[i], running[i], running[i + 1])
  {
    if n == 0 {
      running := [0];
    } else {
      var before := CountShares(env, view, n - 1);
      running := before + [SumIn(env, view[..n], SessionHistory)];
      ShareStep(env, view, n - 1);
    }
  }

  lemma SumIsHistoryShare(env: Environment, view: seq<Message>)
    ensures IsHistoryShare(env, view, SumIn(env, view, SessionHistory))
  {
    var running := CountShares(env, view, |view|);
    assert view[..|view|] == view;
    assert CountsShares(env, view, running);
  }

  function BytesOf(env: Environment, view: seq<Message>): (n: nat)
  {
    if view == [] then 0 else BytesOf(env, view[..|view| - 1]) + env.jsonBytes(view[|view| - 1])
  }

  lemma {:induction false} BytesArePaid(env: Environment, view: seq<Message>)
    ensures BytesOf(env, view) <= 4 * SumAll(env, view)
  {
    if view != [] {
      BytesArePaid(env, view[..|view| - 1]);
    }
  }

  lemma BytesStep(env: Environment, view: seq<Message>, i: nat)
    requires i < |view|
    ensures BytesOf(env, view[..i + 1]) == BytesOf(env, view[..i]) + env.jsonBytes(view[i])
  {
    assert view[..i + 1][..i] == view[..i];
  }

  lemma {:induction false} CountBytes(env: Environment, view: seq<Message>, n: nat) returns (running: seq<nat>)
    requires n <= |view|
    ensures |running| == n + 1 && running[0] == 0 && running[n] == BytesOf(env, view[..n])
    ensures forall i :: 0 <= i < n ==> running[i + 1] == running[i] + env.jsonBytes(view[i])
  {
    if n == 0 {
      running := [0];
    } else {
      var before := CountBytes(env, view, n - 1);
      running := before + [BytesOf(env, view[..n])];
      BytesStep(env, view, n - 1);
    }
  }

  /** What is priced at `tokens` has at most four times as many bytes. */
  lemma PriceCoversBytes(env: Environment, messages: seq<Message>, tokens: nat)
    requires PriceOf(env, messages) <= tokens
    ensures exists n: nat :: HasBytes(env, env.assemble(messages), n) && n <= 4 * tokens
  {
    var view := env.assemble(messages);
    var running := CountBytes(env, view, |view|);
    assert view[..|view|] == view;
    assert CountsBytes(env, view, running);
    BytesArePaid(env, view);
    assert HasBytes(env, view, BytesOf(env, view));
  }

  /** The view delivered to the model: the projected one when reads are reused. */
  function Delivered(env: Environment, conversation: seq<Message>): (view: seq<Message>)
  {
    if env.reuse.Some? then env.reuse.value(conversation) else conversation
  }

  function HistoryPrice(env: Environment, conversation: seq<Message>): (tokens: nat)
  {
    SumIn(env, env.assemble(Delivered(env, conversation)), SessionHistory)
  }

  const LISTED: set<Bucket> :=
    {StaticSystem, RuntimeInstruction, ProjectContext, SessionHistory, WorkingMemory, CurrentTurn}

  /** Every bucket holds its share; a bucket not listed yet holds nothing. */
  ghost predicate Filled(env: Environment, messages: seq<Message>, allocations: map<Bucket, nat>)
  {
    && LISTED <= allocations.Keys
    && forall b :: SumIn(env, messages, b) == if b in allocations then allocations[b] else 0
  }

  /** Lines 314-359: one bucket per message, `tool_catalog` added on demand. */
  method FillBuckets(env: Environment, assembled: seq<Message>) returns (allocations: map<Bucket, nat>, images: nat)
    ensures Filled(env, assembled, allocations)
    ensures images == SumImages(env, assembled)
  {
    allocations := map[StaticSystem := 0, RuntimeInstruction := 0, ProjectContext := 0,
                       SessionHistory := 0, WorkingMemory := 0, CurrentTurn := 0];
    images := 0;
    for i := 0 to |assembled|
      invariant Filled(env, assembled[..i], allocations)
      invariant images == SumImages(env, assembled[..i])
    {
      var m := assembled[i];
      assert assembled[..i + 1][..i] == assembled[..i];
      images := images + env.imageTokens(m);
      var bucket := BucketOf(m);
      var cost := MessageCost(env, m);
      FilledStep(env, assembled[..i], m, allocations);
      assert assembled[..i + 1] == assembled[..i] + [m];
      allocations := allocations[bucket := (if bucket in allocations then allocations[bucket] else 0) + cost];
    }
    assert assembled[..|assembled|] == assembled;
  }

  lemma FilledStep(env: Environment, messages: seq<Message>, m: Message, allocations: map<Bucket, nat>)
    requires Filled(env, messages, allocations)
    ensures var bucket := BucketOf(m);
            Filled(env, messages + [m],
                   allocations[bucket := (if bucket in allocations then allocations[bucket] else 0) + MessageCost(env, m)])
  {
    assert (messages + [m])[..|messages|] == messages;
  }

  method PriceTools(tools: seq<nat>) returns (total: nat)
    ensures total == SumTools(tools)
  {
    total := 0;
    for i := 0 to |tools|
      invariant total == SumTools(tools[..i])
    {
      assert tools[..i + 1][..i] == tools[..i];
      total := total + JsonTokens(tools[i]) + 2;
    }
    assert tools[..|tools|] == tools;
  }

  method EstimateInputBudget(env: Environment, conversation: seq<Message>)
    returns (estimated: nat, allocations: map<Bucket, nat>)
    ensures estimated == PriceOf(env, Delivered(env, conversation))
    ensures SessionHistory in allocations && allocations[SessionHistory] == HistoryPrice(env, conversation)
    // in terms of the view alone
    ensures IsEstimate(env, env.assemble(Delivered(env, conversation)), estimated)
    ensures IsHistoryShare(env, env.assemble(Delivered(env, conversation)), allocations[SessionHistory])
  {
    PriceIsEstimate(env, Delivered(env, conversation));
    SumIsHistoryShare(env, env.assemble(Delivered(env, conversation)));
    var assembled := env.assemble(Delivered(env, conversation));
    var images;
    allocations, images := FillBuckets(env, assembled);
    var tools := PriceTools(env.toolBytes);
    BucketsPartition(env, assembled);
    var total := allocations[StaticSystem] + allocations[RuntimeInstruction] + allocations[ProjectContext]
               + allocations[SessionHistory] + allocations[WorkingMemory] + allocations[CurrentTurn]
               + (if ToolCatalog in allocations then allocations[ToolCatalog] else 0)
               + images + tools + 8;
    estimated := if total < 1 then 1 else total;
  }

  // ---- budgets -------------------------------------------------------------

  /** `window == 0` stands for an unknown provider window. */
  datatype Budget = Budget(window: nat, maxOutput: nat, trigger: nat, hard: nat, estimated: nat)

  function Min(a: int, b: int): int
  {
    if a <= b then a else b
  }

  function TriggerTokens(m: Manager, window: nat): (trigger: nat)
    requires ValidManager(m)
    ensures 1 <= trigger && (window >= 1 ==> trigger <= window)
    ensures m.latency > 0 ==> trigger <= m.latency
    // the greatest number within the ratio and the latency cap, but at least 1
    ensures trigger == 1 || trigger as real <= window as real * m.triggerRatio
    ensures trigger + 1 > m.latency > 0 || (trigger + 1) as real > window as real * m.triggerRatio
  {
    ScaledBelow(window, m.triggerRatio);
    var scaled := (window as real * m.triggerRatio).Floor;
    var least := if m.latency > 0 then Min(scaled, m.latency) else scaled;
    if least < 1 then 1 else least
  }

  lemma ScaledBelow(window: nat, ratio: real)
    requires 0.0 < ratio < 1.0
    ensures 0 <= (window as real * ratio).Floor <= window
  {
    assert 0.0 <= window as real * ratio <= window as real;
  }

  predicate ShouldCompact(b: Budget)
  {
    b.estimated + b.maxOutput >= b.trigger
  }

  /** The test the turn search uses: the tightened target and the history cap. */
  function FitsBudget(m: Manager, env: Environment, b: Budget): Fits
  {
    (candidate: seq<Message>) =>
      (b.window == 0 || PriceOf(env, Delivered(env, candidate)) <= (var t := Min(b.hard, b.trigger - b.maxOutput); if t < 1 then 1 else t))
      && (m.softHistory == 0 || HistoryPrice(env, candidate) <= m.softHistory)
  }

  // ---- compaction ----------------------------------------------------------

  datatype ReceiptData = ReceiptData(compacted: nat, forgotten: seq<string>, sequences: set<int>)

  /** In-place reductions: the same messages with some session projections rewritten. */
  ghost predicate ReducedFrom(conversation: seq<Message>, projected: seq<Message>, m: Manager)
  {
    && |projected| == |conversation|
    && forall i :: 0 <= i < |projected| ==> ReducedMessage(conversation[i], projected[i], m)
  }

  ghost predicate ReducedMessage(source: Message, r: Message, m: Manager)
  {
    exists h :: (h == source || RewrittenFrom(source, h)) && r == Reduce(h, m.floor, m.ceiling)
  }

  method MakeReceipt(source: seq<Message>, preserved: seq<Message>, compacted: nat) returns (r: ReceiptData)
    ensures r == ReceiptData(compacted, ForgottenIds(source, Ids(preserved)), ForgottenSequences(source, preserved))
  {
    var forgotten, sequences := Receipt(source, preserved);
    r := ReceiptData(compacted, forgotten, sequences);
  }

  /** A receipt names what the preserved messages no longer hold. */
  predicate Audits(conversation: seq<Message>, preserved: seq<Message>, receipt: Option<ReceiptData>)
  {
    receipt.Some? ==>
      && receipt.value.forgotten == ForgottenIds(conversation, Ids(preserved))
      && receipt.value.sequences == ForgottenSequences(conversation, preserved)
  }

  /** What the in-place reductions of `_compact` make of a conversation: turn histories
      first, then session projections. */
  ghost predicate Reduces(m: Manager, env: Environment, b: Budget, conversation: seq<Message>, projected: seq<Message>)
  {
    exists reduced ::
      AllSettled(conversation, reduced, FitsBudget(m, env, b)) && projected == ReduceAll(reduced, m.floor, m.ceiling)
  }

  /** No history has to be shortened and no session projection loses anything. */
  ghost predicate NothingToDrop(m: Manager, env: Environment, b: Budget, conversation: seq<Message>)
  {
    !MustShorten(conversation, FitsBudget(m, env, b)) && forall x :: x in conversation ==> DropsNothing(x, m.floor, m.ceiling)
  }

  /** Then session projections may still get a new name. */
  lemma NothingDropped(m: Manager, env: Environment, b: Budget, conversation: seq<Message>, projected: seq<Message>)
    requires Reduces(m, env, b, conversation, projected) && !MustShorten(conversation, FitsBudget(m, env, b))
    ensures projected == ReduceAll(conversation, m.floor, m.ceiling)
  {
    var fits := FitsBudget(m, env, b);
    var reduced :| AllSettled(conversation, reduced, fits) && projected == ReduceAll(reduced, m.floor, m.ceiling);
    FittingIsLeftAlone(conversation, reduced, fits);
  }

  method ReduceHistories(m: Manager, env: Environment, conversation: seq<Message>, b: Budget)
    returns (projected: seq<Message>, items: nat)
    requires ValidManager(m)
    ensures Reduces(m, env, b, conversation, projected)
    ensures items == 0 <==> NothingToDrop(m, env, b, conversation)
  {
    var reduced, turnItems := CompactTurnHistory(conversation, FitsBudget(m, env, b));
    if turnItems == 0 {
      FittingIsLeftAlone(conversation, reduced, FitsBudget(m, env, b));
      RemovesIffAny(conversation, m);
    }
    projected, items := CompactSessionMessages(reduced, m.floor, m.ceiling);
    items := items + turnItems;
  }

  lemma RemovesIffAny(conversation: seq<Message>, m: Manager)
    requires ValidManager(m)
    ensures RemovedFromAll(conversation, m.floor, m.ceiling) == 0
            <==> forall x :: x in conversation ==> DropsNothing(x, m.floor, m.ceiling)
  {
    if RemovedFromAll(conversation, m.floor, m.ceiling) == 0 {
      forall x | x in conversation
        ensures DropsNothing(x, m.floor, m.ceiling)
      {
        NoneRemoved(conversation, m.floor, m.ceiling, x);
      }
    } else if forall x :: x in conversation ==> DropsNothing(x, m.floor, m.ceiling) {
      NothingToRemove(conversation, m.floor, m.ceiling);
    }
  }

  function Target(b: Budget): int
  {
    Min(b.hard, b.trigger - b.maxOutput)
  }

  /** Exchanges are folded only when the reductions were not enough. */
  function Folded(m: Manager, env: Environment, b: Budget, projected: seq<Message>): (preserved: seq<Message>)
  {
    if PriceOf(env, Delivered(env, projected)) <= Target(b) then projected
    else Apply(projected, Action.Compact(m.floor, env.digest))
  }

  /** The reductions were enough, or there is no exchange to fold. */
  predicate FoldsNothing(m: Manager, env: Environment, b: Budget, projected: seq<Message>)
  {
    || PriceOf(env, Delivered(env, projected)) <= Target(b)
    || |Groups(projected)| <= 2 || Dropped(Groups(projected), m.floor) == []
  }

  /** The whole of `_compact`. `projected` is the transcript after the in-place
      reductions; exchanges are folded only when those were not enough. */
  method Compact(m: Manager, env: Environment, conversation: seq<Message>, b: Budget)
    returns (preserved: seq<Message>, receipt: Option<ReceiptData>, ghost projected: seq<Message>)
    requires ValidManager(m)
    ensures Reduces(m, env, b, conversation, projected) && preserved == Folded(m, env, b, projected)
    ensures Audits(conversation, preserved, receipt)
    // there is no receipt exactly when nothing is dropped; even then projections are renamed
    ensures receipt.None? <==> NothingToDrop(m, env, b, conversation) && FoldsNothing(m, env, b, projected)
    ensures receipt.None? ==> preserved == ReduceAll(conversation, m.floor, m.ceiling)
    ensures receipt.None? ==> (preserved == conversation <==> forall x :: x in conversation ==> !Reducible(x))
  {
    var current, sessionItems := ReduceHistories(m, env, conversation, b);
    projected := current;
    preserved, receipt := FoldIfNeeded(m, env, conversation, current, b, sessionItems);
    if sessionItems == 0 {
      NothingDropped(m, env, b, conversation, current);
      ReducingRenames(conversation, m.floor, m.ceiling);
    }
  }

  /** Lines 417-465, after the reductions. */
  method FoldIfNeeded(m: Manager, env: Environment, conversation: seq<Message>, current: seq<Message>, b: Budget,
                      sessionItems: nat)
    returns (preserved: seq<Message>, receipt: Option<ReceiptData>)
    requires ValidManager(m)
    ensures preserved == Folded(m, env, b, current) && Audits(conversation, preserved, receipt)
    ensures receipt.None? <==> sessionItems == 0 && FoldsNothing(m, env, b, current)
    ensures receipt.None? ==> preserved == current
  {
    var estimated, _ := EstimateInputBudget(env, current);
    if estimated <= Target(b) {
      receipt := ReceiptOfReductions(conversation, current, sessionItems);
      return current, receipt;
    }
    preserved, receipt := FoldGroups(m, env, conversation, current, sessionItems);
  }

  /** Lines 423-471: too few groups are left alone. */
  method FoldGroups(m: Manager, env: Environment, conversation: seq<Message>, current: seq<Message>, sessionItems: nat)
    returns (preserved: seq<Message>, receipt: Option<ReceiptData>)
    requires ValidManager(m)
    ensures preserved == Apply(current, Action.Compact(m.floor, env.digest)) && Audits(conversation, preserved, receipt)
    ensures receipt.None? <==> sessionItems == 0 && (|Groups(current)| <= 2 || Dropped(Groups(current), m.floor) == [])
    ensures receipt.None? ==> preserved == current
  {
    var groups := SplitIntoGroups(current);
    if |groups| <= 2 {
      receipt := ReceiptOfReductions(conversation, current, sessionItems);
      return current, receipt;
    }
    preserved, receipt := Fold(m, env, conversation, groups, sessionItems);
  }

  method ReceiptOfReductions(conversation: seq<Message>, current: seq<Message>, sessionItems: nat)
    returns (receipt: Option<ReceiptData>)
    ensures Audits(conversation, current, receipt)
    ensures receipt.Some? <==> sessionItems != 0
  {
    if sessionItems == 0 {
      return None;
    }
    var r := MakeReceipt(conversation, current, sessionItems);
    return Some(r);
  }

  /** The part of `_compact` that folds exchanges. */
  method Fold(m: Manager, env: Environment, conversation: seq<Message>, groups: seq<Group>, sessionItems: nat)
    returns (preserved: seq<Message>, receipt: Option<ReceiptData>)
    requires ValidManager(m) && groups != [] && forall g :: g in groups ==> g != []
    ensures preserved == Flatten(CompactGroups(groups, m.floor, env.digest))
    ensures receipt.None? <==> sessionItems == 0 && Dropped(groups, m.floor) == []
    ensures receipt.None? ==> preserved == Flatten(groups)
    ensures Audits(conversation, preserved, receipt)
  {
    var compacted;
    preserved, compacted := CompactExchanges(groups, m.floor, env.digest);
    if compacted == [] && sessionItems == 0 {
      NothingFolded(groups, m.floor, env.digest);
      return preserved, None;
    }
    var r := MakeReceipt(conversation, preserved, |compacted| + sessionItems);
    return preserved, Some(r);
  }

  lemma NothingFolded(groups: seq<Group>, floor: nat, digest: Digest)
    requires groups != [] && (forall g :: g in groups ==> g != []) && Dropped(groups, floor) == []
    ensures CompactGroups(groups, floor, digest) == groups
  {
    SomeDropped(groups, DropMask(groups, floor));
    SpliceNone(groups, DropMask(groups, floor), [Summary(Dropped(groups, floor), digest)]);
  }

  lemma {:induction false} SomeDropped(groups: seq<Group>, drop: seq<bool>)
    requires |groups| == |drop| && forall g :: g in groups ==> g != []
    ensures true in drop ==> Flatten(DropBy(groups, drop)) != []
  {
    if groups != [] {
      assert groups[0] in groups && forall g :: g in groups[1..] ==> g in groups;
      SomeDropped(groups[1..], drop[1..]);
      assert drop == [drop[0]] + drop[1..];
    }
  }

  /** Reducing works message by message. */
  lemma ReducesMessages(m: Manager, env: Environment, b: Budget, conversation: seq<Message>, projected: seq<Message>)
    requires Reduces(m, env, b, conversation, projected)
    ensures ReducedFrom(conversation, projected, m)
  {
    var fits := FitsBudget(m, env, b);
    var reduced :| AllSettled(conversation, reduced, fits) && projected == ReduceAll(reduced, m.floor, m.ceiling);
    forall i | 0 <= i < |projected|
      ensures ReducedMessage(conversation[i], projected[i], m)
    {
      SettledIsRewritten(conversation, reduced, fits, i);
      var h := reduced[i];
      assert (h == conversation[i] || RewrittenFrom(conversation[i], h)) && projected[i] == Reduce(h, m.floor, m.ceiling);
    }
  }

  /** A projection without rows, records or pins. */
  function EmptyProjection(): (m: Message)
  {
    var body := SessionBody(false, Missing, [], {}, None, Records([]), None, NoNote, Original(0));
    WithBody(Message(SESSION_PREFIX + "1", User, [], Ordinary), SESSION_PREFIX + "1", body)
  }

  lemma EmptyReduces(floor: nat, ceiling: nat)
    ensures SessionBodyOf(EmptyProjection()).Some? && Reducible(EmptyProjection()) && !IsManaged(EmptyProjection())
    ensures var body := SessionBodyOf(EmptyProjection()).value;
            ReduceBody(body, floor, ceiling) == body.(note := SessionNote(floor, ceiling, {}))
    ensures DropsNothing(EmptyProjection(), floor, ceiling)
  {
    var body := SessionBody(false, Missing, [], {}, None, Records([]), None, NoNote, Original(0));
    WithBodyReadsBack(Message(SESSION_PREFIX + "1", User, [], Ordinary), SESSION_PREFIX + "1", body);
    EmptyRows({}, floor, ceiling);
    assert PinnedTasks(body) == {};
  }

  /** There is nothing to drop from it, so in no window is there a receipt; yet it gets a
      new name and a note. */
  lemma RenamedWithoutReceipt(m: Manager, env: Environment, b: Budget, projected: seq<Message>)
    requires ValidManager(m) && Reduces(m, env, b, [EmptyProjection()], projected)
    ensures NothingToDrop(m, env, b, [EmptyProjection()]) && FoldsNothing(m, env, b, projected)
    ensures |projected| == 1 && projected[0].id == SESSION_PREFIX + "1" + COMPACTED
    ensures SessionBodyOf(projected[0]).Some? && SessionBodyOf(EmptyProjection()).Some?
    ensures SessionBodyOf(projected[0]).value
            == SessionBodyOf(EmptyProjection()).value.(note := SessionNote(m.floor, m.ceiling, {}))
  {
    var source := EmptyProjection();
    EmptyReduces(m.floor, m.ceiling);
    AloneIsReduced(m, env, b, source, projected);
    var id := SESSION_PREFIX + "1" + COMPACTED;
    assert source.id + COMPACTED == id && HasPrefix(id, SESSION_PREFIX);
    WithBodyReadsBack(source, id, ReduceBody(SessionBodyOf(source).value, m.floor, m.ceiling));
    OneGroup(projected);
  }

  lemma AloneIsReduced(m: Manager, env: Environment, b: Budget, source: Message, projected: seq<Message>)
    requires Reduces(m, env, b, [source], projected) && !IsManaged(source) && DropsNothing(source, m.floor, m.ceiling)
    ensures NothingToDrop(m, env, b, [source]) && projected == [Reduce(source, m.floor, m.ceiling)]
  {
    NothingDropped(m, env, b, [source], projected);
  }

  lemma OneGroup(messages: seq<Message>)
    requires |messages| == 1
    ensures |Groups(messages)| == 1
  {
    assert messages[1..] == [];
  }

  /** One call of `_compact` is, on distinct messages, a rewriting of session
      projections followed by at most one fold: the actions of a compacting run. */
  lemma ReductionIsRewrite(conversation: seq<Message>, projected: seq<Message>, m: Manager)
    requires ReducedFrom(conversation, projected, m)
    requires forall i, j :: 0 <= i < j < |conversation| ==> conversation[i] != conversation[j]
    ensures exists f :: RewritesSessions(f) && projected == Apply(conversation, Rewrite(f))
  {
    var f := (x: Message) => RewriteAt(conversation, projected, x);
    forall x: Message
      ensures RewritesMessage(x, f(x))
    {
      RewriteAtIsSession(conversation, projected, m, x);
    }
    RewritesEach(f);
    RewriteMaps(conversation, projected, f);
    assert projected == Apply(conversation, Rewrite(f));
  }

  lemma RewriteMaps(conversation: seq<Message>, projected: seq<Message>, f: Message -> Message)
    requires |projected| == |conversation| && forall x :: f(x) == RewriteAt(conversation, projected, x)
    requires forall i, j :: 0 <= i < j < |conversation| ==> conversation[i] != conversation[j]
    ensures projected == MapGroup(f, conversation)
  {
    forall i | 0 <= i < |conversation|
      ensures MapGroup(f, conversation)[i] == projected[i]
    {
      assert conversation[i] in conversation;
      assert f(conversation[i]) == RewriteAt(conversation, projected, conversation[i]);
    }
  }

  ghost predicate RewritesMessage(x: Message, r: Message)
  {
    r == x || (IsSession(x) && IsSession(r) && r.role == x.role && NoToolBlocks(r))
  }

  lemma RewritesEach(f: Message -> Message)
    requires forall x :: RewritesMessage(x, f(x))
    ensures RewritesSessions(f)
  {
    forall x: Message
      ensures if IsSession(x) then IsSession(f(x)) && f(x).role == x.role && (f(x) == x || NoToolBlocks(f(x)))
              else f(x) == x
    {
      assert RewritesMessage(x, f(x));
    }
  }

  function RewriteAt(conversation: seq<Message>, projected: seq<Message>, x: Message): Message
    requires |projected| == |conversation|
  {
    if x in conversation then projected[IndexOf(conversation, x)] else x
  }

  lemma RewriteAtIsSession(conversation: seq<Message>, projected: seq<Message>, m: Manager, x: Message)
    requires ReducedFrom(conversation, projected, m)
    ensures RewritesMessage(x, RewriteAt(conversation, projected, x))
  {
    if x in conversation {
      var i := IndexOf(conversation, x);
      assert ReducedMessage(conversation[i], projected[i], m);
      ReducedStaysSession(conversation[i], projected[i], m);
    }
  }

  function IndexOf(messages: seq<Message>, x: Message): (i: nat)
    requires x in messages
    ensures i < |messages| && messages[i] == x
  {
    if messages[0] == x then 0
    else
      assert messages == [messages[0]] + messages[1..];
      1 + IndexOf(messages[1..], x)
  }

  lemma ReducedStaysSession(source: Message, r: Message, m: Manager)
    requires ReducedMessage(source, r, m)
    ensures RewritesMessage(source, r)
  {
    var h :| (h == source || RewrittenFrom(source, h)) && r == Reduce(h, m.floor, m.ceiling);
    if h != source {
      RenamedKeepsPrefix(source.id);
    }
  }

  // ---- prepare -------------------------------------------------------------

  datatype Failure = InvalidOutput | WindowExceeded

  datatype Prepared = Prepared(messages: seq<Message>, retained: seq<Message>, budget: Budget, receipt: Option<ReceiptData>)

  predicate IsManagedHistory(conversation: seq<Message>)
  {
    exists m :: m in conversation && SessionBodyOf(m).Some? && SessionBodyOf(m).value.managed
  }

  predicate HistoryPressure(m: Manager, env: Environment, conversation: seq<Message>)
  {
    m.softHistory != 0 && IsManagedHistory(conversation) && HistoryPrice(env, conversation) > m.softHistory
  }

  /** The budget of a known window, before anything is reduced. */
  function BudgetOf(m: Manager, env: Environment, conversation: seq<Message>, window: nat, maxOutput: nat): (b: Budget)
    requires ValidManager(m) && maxOutput < window
  {
    Budget(window, maxOutput, TriggerTokens(m, window), window - maxOutput, PriceOf(env, Delivered(env, conversation)))
  }

  /** What `_compact` may preserve. */
  ghost predicate Compacts(m: Manager, env: Environment, b: Budget, conversation: seq<Message>, preserved: seq<Message>)
  {
    exists projected :: Reduces(m, env, b, conversation, projected) && preserved == Folded(m, env, b, projected)
  }

  /** The transcript to deliver: histories only for an unknown window; otherwise the
      conversation as it is, until the trigger or history pressure asks for more. */
  ghost predicate Retains(m: Manager, env: Environment, conversation: seq<Message>, window: int, maxOutput: nat,
                          retained: seq<Message>)
    requires ValidManager(m) && (window <= 0 || maxOutput < window)
  {
    if window <= 0 then
      AllSettled(conversation, retained, FitsBudget(m, env, UnknownWindow(env, conversation, maxOutput)))
    else if !ShouldCompact(BudgetOf(m, env, conversation, window, maxOutput)) && !HistoryPressure(m, env, conversation) then
      retained == conversation
    else
      Compacts(m, env, BudgetOf(m, env, conversation, window, maxOutput), conversation, retained)
  }

  function UnknownWindow(env: Environment, conversation: seq<Message>, maxOutput: nat): (b: Budget)
  {
    Budget(0, maxOutput, 0, 0, PriceOf(env, Delivered(env, conversation)))
  }

  /** Some transcript to deliver is too expensive for the window. */
  ghost predicate Exceeds(m: Manager, env: Environment, conversation: seq<Message>, window: nat, maxOutput: nat)
    requires ValidManager(m) && maxOutput < window
  {
    exists t :: Retains(m, env, conversation, window, maxOutput, t) && PriceOf(env, Delivered(env, t)) > window - maxOutput
  }

  /** Whatever is returned for a known window fits it, output reserve included; the
      estimate reported is the price of the very messages delivered. */
  method Prepare(m: Manager, env: Environment, conversation: seq<Message>, window: int, maxOutput: int)
    returns (r: Result<Prepared, Failure>)
    requires ValidManager(m)
    ensures r == Err(InvalidOutput) <==> maxOutput <= 0
    ensures 0 < window <= maxOutput ==> r == Err(WindowExceeded)
    ensures maxOutput > 0 && window <= 0 ==> r.Ok?
    // otherwise it fails only because what is to be delivered does not fit
    ensures 0 < maxOutput < window && r.Err? ==> Exceeds(m, env, conversation, window, maxOutput)
    ensures r.Ok? ==> (window <= 0 || maxOutput < window) && Retains(m, env, conversation, window, maxOutput, r.value.retained)
    ensures r.Ok? ==> r.value.messages == Delivered(env, r.value.retained)
                      && r.value.budget.estimated == PriceOf(env, r.value.messages)
    ensures r.Ok? && window > 0 ==> PriceOf(env, r.value.messages) + maxOutput <= window
    // the same in terms of the view alone
    ensures r.Ok? ==> Weighed(env, r.value, window, maxOutput)
    ensures r.Ok? ==> Audits(conversation, r.value.retained, r.value.receipt)
    // without a receipt nothing was dropped
    ensures r.Ok? && r.value.receipt.None? ==> Unreduced(m, conversation, r.value.retained)
  {
    if maxOutput <= 0 {
      return Err(InvalidOutput);
    }
    var before, allocations := EstimateInputBudget(env, conversation);
    if window <= 0 {
      var prepared := PrepareHistories(m, env, conversation, maxOutput);
      IsWeighed(env, prepared, window, maxOutput);
      return Ok(prepared);
    }
    if maxOutput >= window {
      return Err(WindowExceeded);
    }
    var budget := Budget(window, maxOutput, TriggerTokens(m, window), window - maxOutput, before);
    var pressure := m.softHistory != 0 && IsManagedHistory(conversation) && allocations[SessionHistory] > m.softHistory;
    assert pressure == HistoryPressure(m, env, conversation);
    if !ShouldCompact(budget) && !pressure {
      var same := Prepared(Delivered(env, conversation), conversation, budget, None);
      IsWeighed(env, same, window, maxOutput);
      return Ok(same);
    }
    r := PrepareCompacted(m, env, conversation, budget);
    if r.Ok? {
      IsWeighed(env, r.value, window, maxOutput);
    }
  }

  /** Lines 244-277: what is compacted must fit the window. */
  method PrepareCompacted(m: Manager, env: Environment, conversation: seq<Message>, budget: Budget)
    returns (r: Result<Prepared, Failure>)
    requires ValidManager(m)
    ensures r.Err? ==> r.error == WindowExceeded
                       && exists t :: Compacts(m, env, budget, conversation, t)
                                      && PriceOf(env, Delivered(env, t)) > budget.hard
    ensures r.Ok? ==> Compacts(m, env, budget, conversation, r.value.retained)
                      && r.value.messages == Delivered(env, r.value.retained)
                      && r.value.budget.estimated == PriceOf(env, r.value.messages) <= budget.hard
                      && Audits(conversation, r.value.retained, r.value.receipt)
    ensures r.Ok? && r.value.receipt.None? ==> Unreduced(m, conversation, r.value.retained)
  {
    var compacted, receipt, projected := Compact(m, env, conversation, budget);
    assert Compacts(m, env, budget, conversation, compacted);
    var after, _ := EstimateInputBudget(env, compacted);
    if after > budget.hard {
      return Err(WindowExceeded);
    }
    return Ok(Prepared(Delivered(env, compacted), compacted, budget.(estimated := after), receipt));
  }

  /** The estimate reported is that of the view of the messages; for a known window it fits
      beside the output, and so do the bytes of the view at four to the token. */
  ghost predicate Weighed(env: Environment, p: Prepared, window: int, maxOutput: int)
  {
    var view := env.assemble(p.messages);
    && IsEstimate(env, view, p.budget.estimated)
    && (window > 0 ==> p.budget.estimated + maxOutput <= window)
    && (window > 0 ==> exists n: nat :: HasBytes(env, view, n) && n <= 4 * (window - maxOutput))
  }

  lemma IsWeighed(env: Environment, p: Prepared, window: int, maxOutput: int)
    requires p.budget.estimated == PriceOf(env, p.messages) && (window > 0 ==> p.budget.estimated + maxOutput <= window)
    ensures Weighed(env, p, window, maxOutput)
  {
    PriceIsEstimate(env, p.messages);
    if window > 0 {
      PriceCoversBytes(env, p.messages, window - maxOutput);
    }
  }

  /** Exchanges are folded exactly when the reduced transcript, with the output, exceeds the
      window or the trigger. */
  lemma FoldsAboveTarget(m: Manager, env: Environment, conversation: seq<Message>, window: nat, maxOutput: nat,
                         projected: seq<Message>, estimated: nat)
    requires ValidManager(m) && maxOutput < window && IsEstimate(env, env.assemble(Delivered(env, projected)), estimated)
    ensures Folded(m, env, BudgetOf(m, env, conversation, window, maxOutput), projected)
            == if estimated + maxOutput <= window && estimated + maxOutput <= TriggerTokens(m, window) then projected
               else Apply(projected, Action.Compact(m.floor, env.digest))
  {
    PriceIsEstimate(env, Delivered(env, projected));
    EstimateIsUnique(env, env.assemble(Delivered(env, projected)), estimated, PriceOf(env, Delivered(env, projected)));
  }

  lemma EstimateIsUnique(env: Environment, view: seq<Message>, a: nat, b: nat)
    requires IsEstimate(env, view, a) && IsEstimate(env, view, b)
    ensures a == b
  {
    var s: seq<nat> :| Counts(env, view, s) && a == s[|view| + |env.toolBytes|];
    var t: seq<nat> :| Counts(env, view, t) && b == t[|view| + |env.toolBytes|];
    SameMessages(env, view, s, t, |view|);
    SameTools(env, view, s, t, |env.toolBytes|);
  }

  lemma {:induction false} SameMessages(env: Environment, view: seq<Message>, s: seq<nat>, t: seq<nat>, i: nat)
    requires i <= |view| && Counts(env, view, s) && Counts(env, view, t)
    ensures s[i] == t[i]
  {
    if i > 0 {
      SameMessages(env, view, s, t, i - 1);
      assert AddsMessage(env, view[i - 1], s[i - 1], s[i]) && AddsMessage(env, view[i - 1], t[i - 1], t[i]);
    }
  }

  lemma {:induction false} SameTools(env: Environment, view: seq<Message>, s: seq<nat>, t: seq<nat>, i: nat)
    requires i <= |env.toolBytes| && Counts(env, view, s) && Counts(env, view, t) && s[|view|] == t[|view|]
    ensures s[|view| + i] == t[|view| + i]
  {
    if i > 0 {
      SameTools(env, view, s, t, i - 1);
      assert AddsTool(env.toolBytes[i - 1], s[|view| + (i - 1)], s[|view| + (i - 1) + 1]);
      assert AddsTool(env.toolBytes[i - 1], t[|view| + (i - 1)], t[|view| + (i - 1) + 1]);
    }
  }

  lemma ShareIsUnique(env: Environment, view: seq<Message>, a: nat, b: nat)
    requires IsHistoryShare(env, view, a) && IsHistoryShare(env, view, b)
    ensures a == b
  {
    var s: seq<nat> :| CountsShares(env, view, s) && a == s[|view|];
    var t: seq<nat> :| CountsShares(env, view, t) && b == t[|view|];
    SameShares(env, view, s, t, |view|);
  }

  lemma {:induction false} SameShares(env: Environment, view: seq<Message>, s: seq<nat>, t: seq<nat>, i: nat)
    requires i <= |view| && CountsShares(env, view, s) && CountsShares(env, view, t)
    ensures s[i] == t[i]
  {
    if i > 0 {
      SameShares(env, view, s, t, i - 1);
      assert AddsShare(env, view[i - 1], s[i - 1], s[i]) && AddsShare(env, view[i - 1], t[i - 1], t[i]);
    }
  }

  /** The view of a conversation is estimated at `estimated` tokens, and its history at `share`. */
  ghost predicate IsPriced(env: Environment, conversation: seq<Message>, estimated: nat, share: nat)
  {
    var view := env.assemble(Delivered(env, conversation));
    IsEstimate(env, view, estimated) && IsHistoryShare(env, view, share)
  }

  lemma PricesAre(env: Environment, conversation: seq<Message>, estimated: nat, share: nat)
    requires IsPriced(env, conversation, estimated, share)
    ensures estimated == PriceOf(env, Delivered(env, conversation)) && share == HistoryPrice(env, conversation)
  {
    var view := env.assemble(Delivered(env, conversation));
    PriceIsEstimate(env, Delivered(env, conversation));
    SumIsHistoryShare(env, view);
    EstimateIsUnique(env, view, estimated, PriceOf(env, Delivered(env, conversation)));
    ShareIsUnique(env, view, share, HistoryPrice(env, conversation));
  }

  /** Some message is a session history that is kept turn by turn. */
  ghost predicate HoldsManagedHistory(conversation: seq<Message>)
  {
    exists i :: 0 <= i < |conversation| && SessionBodyOf(conversation[i]).Some?
                && SessionBodyOf(conversation[i]).value.managed
  }

  /** With a known window the conversation is reduced exactly when its estimate and the output
      reach the trigger, or a managed history exceeds its soft cap. */
  lemma ReducesAtTrigger(m: Manager, env: Environment, conversation: seq<Message>, window: nat, maxOutput: nat,
                         estimated: nat, share: nat, retained: seq<Message>)
    requires ValidManager(m) && maxOutput < window && IsPriced(env, conversation, estimated, share)
    ensures Retains(m, env, conversation, window, maxOutput, retained)
            <==> if estimated + maxOutput < TriggerTokens(m, window)
                    && (m.softHistory == 0 || share <= m.softHistory || !HoldsManagedHistory(conversation))
                 then retained == conversation
                 else Compacts(m, env, BudgetOf(m, env, conversation, window, maxOutput), conversation, retained)
  {
    PricesAre(env, conversation, estimated, share);
    ManagedIsHeld(conversation);
  }

  lemma ManagedIsHeld(conversation: seq<Message>)
    ensures IsManagedHistory(conversation) <==> HoldsManagedHistory(conversation)
  {
    if IsManagedHistory(conversation) {
      var m :| m in conversation && SessionBodyOf(m).Some? && SessionBodyOf(m).value.managed;
      var i :| 0 <= i < |conversation| && conversation[i] == m;
    }
  }

  /** A shortened history fits when its estimate leaves room for the output below both the window
      and the trigger, or is a single token, and its own share keeps to the soft cap. */
  lemma FitsWithinTarget(m: Manager, env: Environment, conversation: seq<Message>, window: nat, maxOutput: nat,
                         candidate: seq<Message>, estimated: nat, share: nat)
    requires ValidManager(m) && maxOutput < window && IsPriced(env, candidate, estimated, share)
    ensures FitsBudget(m, env, BudgetOf(m, env, conversation, window, maxOutput))(candidate)
            <==> (estimated <= 1 || (estimated + maxOutput <= window && estimated + maxOutput <= TriggerTokens(m, window)))
                 && (m.softHistory == 0 || share <= m.softHistory)
  {
    PricesAre(env, candidate, estimated, share);
  }

  /** The conversation itself, or with projections renamed and nothing dropped from them. */
  ghost predicate Unreduced(m: Manager, conversation: seq<Message>, retained: seq<Message>)
  {
    || retained == conversation
    || (retained == ReduceAll(conversation, m.floor, m.ceiling)
        && forall x :: x in conversation ==> DropsNothing(x, m.floor, m.ceiling))
  }

  /** Lines 181-197: an unknown window. */
  method PrepareHistories(m: Manager, env: Environment, conversation: seq<Message>, maxOutput: nat) returns (r: Prepared)
    ensures AllSettled(conversation, r.retained, FitsBudget(m, env, UnknownWindow(env, conversation, maxOutput)))
    ensures r.messages == Delivered(env, r.retained) && r.budget.estimated == PriceOf(env, r.messages)
    ensures Audits(conversation, r.retained, r.receipt)
    ensures r.receipt.None? ==> r.retained == conversation
  {
    var before, _ := EstimateInputBudget(env, conversation);
    var budget := Budget(0, maxOutput, 0, 0, before);
    var compacted, changed := CompactTurnHistory(conversation, FitsBudget(m, env, budget));
    if changed == 0 {
      FittingIsLeftAlone(conversation, compacted, FitsBudget(m, env, budget));
    }
    var after, _ := EstimateInputBudget(env, compacted);
    var receipt := ReceiptOfReductions(conversation, compacted, changed);
    return Prepared(Delivered(env, compacted), compacted, budget.(estimated := after), receipt);
  }

  /** Below the trigger and without history pressure the transcript is left alone. */
  lemma BelowTriggerFits(m: Manager, env: Environment, conversation: seq<Message>, window: nat, maxOutput: nat)
    requires ValidManager(m) && 0 < maxOutput < window && !HistoryPressure(m, env, conversation)
    requires PriceOf(env, Delivered(env, conversation)) + maxOutput < TriggerTokens(m, window)
    ensures Retains(m, env, conversation, window, maxOutput, conversation)
    ensures !Exceeds(m, env, conversation, window, maxOutput)
  {
  }

  /** Every message retained comes from the conversation by reductions, or from one fold of them. */
  lemma RetainedIsReduced(m: Manager, env: Environment, conversation: seq<Message>, window: nat, maxOutput: nat, retained: seq<Message>)
    requires ValidManager(m) && maxOutput < window && Retains(m, env, conversation, window, maxOutput, retained)
    ensures retained == conversation
            || exists projected :: ReducedFrom(conversation, projected, m)
                 && (retained == projected || retained == Apply(projected, Action.Compact(m.floor, env.digest)))
  {
    if retained != conversation {
      var b := BudgetOf(m, env, conversation, window, maxOutput);
      var projected :| Reduces(m, env, b, conversation, projected) && retained == Folded(m, env, b, projected);
      ReducesMessages(m, env, b, conversation, projected);
    }
  }
}
