/** The one message that stands for everything dropped (core/context.py, _summary_message). */
module SummaryFacts {
  import opened Common
  import opened Transcript
  import opened AtomicGroups

  type Context = map<string, CallFact>

  /** The digest of a summary body; canonical_hash is not modelled further. */
  type Digest = (nat, seq<Fact>) -> string

  // ---- facts of one message ------------------------------------------------

  function CallFacts(content: seq<Block>): (calls: seq<CallFact>)
  {
    if content == [] then []
    else
      (if content[0].ToolCallBlock? then
        var call := content[0].call;
        [CallFact(call.callId, call.name, call.navigation)]
      else []) + CallFacts(content[1..])
  }

  function ResultFacts(content: seq<Block>, context: Context): (results: seq<ResultFact>)
  {
    if content == [] then []
    else
      (if content[0].ToolResultBlock? then
        var r := content[0].result;
        [ResultFact(r.callId, r.observation, if r.callId in context then Some(context[r.callId].tool) else None)]
      else []) + ResultFacts(content[1..], context)
  }

  function Remember(context: Context, calls: seq<CallFact>): (after: Context)
    decreases calls
  {
    if calls == [] then context else Remember(context[calls[0].callId := calls[0]], calls[1..])
  }

  /** The facts of an earlier summary, which are inlined rather than summarised again. */
  function PriorFacts(m: Message): (facts: Option<seq<Fact>>)
  {
    if m.role == User && HasPrefix(m.id, SUMMARY_PREFIX) && |m.content| == 1
      && m.content[0].TextBlock? && m.content[0].text.SummaryJson?
    then Some(m.content[0].text.facts)
    else None
  }

  function FactsOf(m: Message, context: Context): (facts: seq<Fact>)
  {
    match PriorFacts(m)
    case Some(facts) => facts
    case None => [Fact(m.role, CallFacts(m.content), ResultFacts(m.content, context))]
  }

  function After(m: Message, context: Context): (after: Context)
  {
    if PriorFacts(m).Some? then context else Remember(context, CallFacts(m.content))
  }

  // ---- facts of a list of messages -----------------------------------------

  function Facts(messages: seq<Message>, context: Context): (facts: seq<Fact>)
  {
    if messages == [] then []
    else FactsOf(messages[0], context) + Facts(messages[1..], After(messages[0], context))
  }

  function ContextAfter(messages: seq<Message>, context: Context): (after: Context)
  {
    if messages == [] then context else ContextAfter(messages[1..], After(messages[0], context))
  }

  /** The summary message of `messages`. */
  function Summary(messages: seq<Message>, digest: Digest): (m: Message)
  {
    var facts := Facts(messages, map[]);
    Message(SUMMARY_PREFIX + digest(|messages|, facts), User,
            [TextBlock(SummaryJson(|messages|, facts))], Ordinary)
  }

  /** The folding loop. What it returns records every message it was given. */
  method SummaryMessage(messages: seq<Message>, digest: Digest) returns (m: Message)
    ensures m == Summary(messages, digest)
    ensures IsRecord(m, messages)
  {
    var facts: seq<Fact> := [];
    var context: Context := map[];
    for i := 0 to |messages|
      invariant Facts(messages, map[]) == facts + Facts(messages[i..], context)
    {
      var message := messages[i];
      FoldStep(messages, i, facts, context);
      var prior := PriorFacts(message);
      if prior.Some? {
        facts := facts + prior.value;
        continue;
      }
      var calls := CallFacts(message.content);
      var results := ResultFacts(message.content, context);
      if calls != [] {
        context := Remember(context, calls);
      }
      facts := facts + [Fact(message.role, calls, results)];
    }
    assert Facts(messages[|messages|..], context) == [];
    assert facts == Facts(messages, map[]);
    SummaryRecords(messages, digest);
    m := Message(SUMMARY_PREFIX + digest(|messages|, facts), User,
                 [TextBlock(SummaryJson(|messages|, facts))], Ordinary);
  }

  lemma SummaryReadsBack(messages: seq<Message>, digest: Digest)
    ensures PriorFacts(Summary(messages, digest)) == Some(Facts(messages, map[]))
  {
  }

  // ---- what a summary records ----------------------------------------------

  /** Block `p` of message `j` calls a tool under `id`. */
  predicate CallsAt(messages: seq<Message>, j: nat, p: nat, id: string)
  {
    && j < |messages| && p < |messages[j].content|
    && messages[j].content[p].ToolCallBlock? && messages[j].content[p].call.callId == id
  }

  /** That is the last call under `id` in the messages before message `i`. */
  ghost predicate LastCallBefore(messages: seq<Message>, i: nat, id: string, j: nat, p: nat)
  {
    && j < i && CallsAt(messages, j, p, id)
    && forall k: nat, q: nat :: k < i && CallsAt(messages, k, q, id) ==> k < j || (k == j && q <= p)
  }

  /** `tool` names the tool last called under `id` before message `i`, if there is a call. */
  ghost predicate NamesTool(messages: seq<Message>, i: nat, id: string, tool: Option<string>)
  {
    match tool
    case None => forall j: nat, p: nat :: j < i ==> !CallsAt(messages, j, p, id)
    case Some(name) => exists j: nat, p: nat ::
      LastCallBefore(messages, i, id, j, p) && messages[j].content[p].call.name == name
  }

  datatype Kind = Calls | Results

  predicate IsOf(kind: Kind, b: Block)
  {
    match kind
    case Calls => b.ToolCallBlock?
    case Results => b.ToolResultBlock?
  }

  /** `at` lists the positions of all blocks of one kind, in order. */
  ghost predicate Positions(at: seq<nat>, content: seq<Block>, kind: Kind)
  {
    && (forall k :: 0 <= k < |at| ==> at[k] < |content| && IsOf(kind, content[at[k]]))
    && (forall k, l :: 0 <= k < l < |at| ==> at[k] < at[l])
    && (forall p: nat :: p < |content| && IsOf(kind, content[p]) ==> p in at)
  }

  ghost predicate CallsMatch(content: seq<Block>, at: seq<nat>, calls: seq<CallFact>)
    requires Positions(at, content, Calls)
  {
    |calls| == |at| && forall k :: 0 <= k < |at| ==>
      var call := content[at[k]].call; calls[k] == CallFact(call.callId, call.name, call.navigation)
  }

  ghost predicate RecordsCalls(content: seq<Block>, calls: seq<CallFact>)
  {
    exists at: seq<nat> :: Positions(at, content, Calls) && CallsMatch(content, at, calls)
  }

  ghost predicate ResultsMatch(messages: seq<Message>, i: nat, at: seq<nat>, results: seq<ResultFact>)
    requires i < |messages| && Positions(at, messages[i].content, Results)
  {
    |results| == |at| && forall k :: 0 <= k < |at| ==>
      var result := messages[i].content[at[k]].result;
      && results[k].callId == result.callId && results[k].observation == result.observation
      && NamesTool(messages, i, result.callId, results[k].tool)
  }

  ghost predicate RecordsResults(messages: seq<Message>, i: nat, results: seq<ResultFact>)
    requires i < |messages|
  {
    exists at: seq<nat> :: Positions(at, messages[i].content, Results) && ResultsMatch(messages, i, at, results)
  }

  /** What message `i` adds to the facts: an earlier summary its own, any other message one
      entry with its role, its calls and its results. */
  ghost predicate RecordsMessage(messages: seq<Message>, i: nat, part: seq<Fact>)
    requires i < |messages|
  {
    var m := messages[i];
    if m.role == User && HasPrefix(m.id, SUMMARY_PREFIX) && |m.content| == 1
       && m.content[0].TextBlock? && m.content[0].text.SummaryJson?
    then part == m.content[0].text.facts
    else
      |part| == 1 && part[0].role == m.role
      && RecordsCalls(m.content, part[0].calls) && RecordsResults(messages, i, part[0].results)
  }

  /** The facts of the messages, one part for each. */
  ghost predicate RecordsMessages(messages: seq<Message>, facts: seq<Fact>)
  {
    exists parts: seq<seq<Fact>> ::
      && |parts| == |messages| && facts == Flatten(parts)
      && forall i :: 0 <= i < |parts| ==> RecordsMessage(messages, i, parts[i])
  }

  /** A message of the summariser's form that records `messages`. */
  ghost predicate IsRecord(m: Message, messages: seq<Message>)
  {
    && m.role == User && HasPrefix(m.id, SUMMARY_PREFIX) && |m.content| == 1
    && m.content[0].TextBlock? && m.content[0].text.SummaryJson?
    && m.content[0].text.sourceMessageCount == |messages| && RecordsMessages(messages, m.content[0].text.facts)
  }

  /** `context` holds, for every id called before message `i`, the tool last called. */
  ghost predicate Remembers(messages: seq<Message>, i: nat, context: Context)
  {
    forall id :: NamesTool(messages, i, id, if id in context then Some(context[id].tool) else None)
  }

  predicate CallsIn(content: seq<Block>, p: nat, id: string)
  {
    p < |content| && content[p].ToolCallBlock? && content[p].call.callId == id
  }

  /** After the calls of one message, an id it calls stands for its last call. */
  lemma {:induction false} LastInContent(content: seq<Block>, context: Context, id: string)
    returns (last: Option<nat>)
    ensures var r := Remember(context, CallFacts(content));
            match last
            case None => (forall p: nat :: !CallsIn(content, p, id)) && (id in r <==> id in context)
                         && (id in context ==> r[id] == context[id])
            case Some(p) => CallsIn(content, p, id) && id in r && r[id].tool == content[p].call.name
                            && forall q: nat :: CallsIn(content, q, id) ==> q <= p
  {
    if content == [] {
      last := None;
    } else {
      var first, tail := content[0], content[1..];
      var next := context;
      if first.ToolCallBlock? {
        var fact := CallFact(first.call.callId, first.call.name, first.call.navigation);
        next := context[fact.callId := fact];
        RememberFirst(context, fact, CallFacts(tail));
        assert CallFacts(content) == [fact] + CallFacts(tail);
      } else {
        assert CallFacts(content) == CallFacts(tail);
      }
      var later := LastInContent(tail, next, id);
      assert forall q: nat :: q > 0 ==> (CallsIn(content, q, id) <==> CallsIn(tail, q - 1, id));
      last := if later.Some? then Some(later.value + 1) else if CallsIn(content, 0, id) then Some(0) else None;
    }
  }

  lemma RememberFirst(context: Context, fact: CallFact, rest: seq<CallFact>)
    ensures Remember(context, [fact] + rest) == Remember(context[fact.callId := fact], rest)
  {
    assert ([fact] + rest)[1..] == rest;
  }

  lemma RemembersNext(messages: seq<Message>, i: nat, context: Context)
    requires i < |messages| && Remembers(messages, i, context)
    ensures Remembers(messages, i + 1, After(messages[i], context))
  {
    forall id
      ensures var r := After(messages[i], context);
              NamesTool(messages, i + 1, id, if id in r then Some(r[id].tool) else None)
    {
      RemembersId(messages, i, context, id);
    }
  }

  lemma RemembersId(messages: seq<Message>, i: nat, context: Context, id: string)
    requires i < |messages| && NamesTool(messages, i, id, if id in context then Some(context[id].tool) else None)
    ensures var r := After(messages[i], context);
            NamesTool(messages, i + 1, id, if id in r then Some(r[id].tool) else None)
  {
    var m := messages[i];
    assert forall p: nat :: CallsAt(messages, i, p, id) <==> CallsIn(m.content, p, id);
    if PriorFacts(m).Some? {
      NoCallsHere(messages, i, id, if id in context then Some(context[id].tool) else None);
    } else {
      var last := LastInContent(m.content, context, id);
      if last.Some? {
        assert LastCallBefore(messages, i + 1, id, i, last.value);
      } else {
        NoCallsHere(messages, i, id, if id in context then Some(context[id].tool) else None);
      }
    }
  }

  lemma NoCallsHere(messages: seq<Message>, i: nat, id: string, tool: Option<string>)
    requires NamesTool(messages, i, id, tool) && forall p: nat :: !CallsAt(messages, i, p, id)
    ensures NamesTool(messages, i + 1, id, tool)
  {
    if tool.Some? {
      var j: nat, p: nat :| LastCallBefore(messages, i, id, j, p) && messages[j].content[p].call.name == tool.value;
      assert LastCallBefore(messages, i + 1, id, j, p);
    }
  }

  /** One more block in front: its position, if it is of the kind, and all others moved up. */
  function MovedUp(at: seq<nat>, first: bool): (more: seq<nat>)
  {
    (if first then [0] else []) + seq(|at|, k requires 0 <= k < |at| => at[k] + 1)
  }

  lemma MovedUpAt(at: seq<nat>, first: bool, k: nat)
    requires k < |MovedUp(at, first)|
    ensures MovedUp(at, first)[k] == if !first then at[k] + 1 else if k == 0 then 0 else at[k - 1] + 1
  {
  }

  lemma MovedUpOrdered(at: seq<nat>, first: bool, k: nat, l: nat)
    requires forall i, j :: 0 <= i < j < |at| ==> at[i] < at[j]
    requires k < l < |MovedUp(at, first)|
    ensures MovedUp(at, first)[k] < MovedUp(at, first)[l]
  {
    MovedUpAt(at, first, k);
    MovedUpAt(at, first, l);
  }

  lemma MovedUpHolds(at: seq<nat>, first: bool, p: nat)
    requires if p == 0 then first else p - 1 in at
    ensures p in MovedUp(at, first)
  {
    var more := MovedUp(at, first);
    if p == 0 {
      assert more[0] == 0;
    } else {
      var k :| 0 <= k < |at| && at[k] == p - 1;
      assert more[if first then k + 1 else k] == p;
    }
  }

  lemma MovedUpIsOf(at: seq<nat>, first: Block, tail: seq<Block>, kind: Kind, k: nat)
    requires forall i :: 0 <= i < |at| ==> at[i] < |tail| && IsOf(kind, tail[at[i]])
    requires k < |MovedUp(at, IsOf(kind, first))|
    ensures var p := MovedUp(at, IsOf(kind, first))[k]; p <= |tail| && IsOf(kind, ([first] + tail)[p])
  {
    MovedUpAt(at, IsOf(kind, first), k);
  }

  lemma PositionsCons(at: seq<nat>, first: Block, tail: seq<Block>, kind: Kind)
    requires Positions(at, tail, kind)
    ensures Positions(MovedUp(at, IsOf(kind, first)), [first] + tail, kind)
  {
    var content, more := [first] + tail, MovedUp(at, IsOf(kind, first));
    forall k | 0 <= k < |more|
      ensures more[k] < |content| && IsOf(kind, content[more[k]])
    {
      MovedUpIsOf(at, first, tail, kind, k);
    }
    forall k, l | 0 <= k < l < |more|
      ensures more[k] < more[l]
    {
      MovedUpOrdered(at, IsOf(kind, first), k, l);
    }
    forall p: nat | p < |content| && IsOf(kind, content[p])
      ensures p in more
    {
      if p > 0 {
        assert content[p] == tail[p - 1];
      }
      MovedUpHolds(at, IsOf(kind, first), p);
    }
  }

  lemma CallsMatchCons(at: seq<nat>, first: Block, tail: seq<Block>, calls: seq<CallFact>)
    requires Positions(at, tail, Calls) && CallsMatch(tail, at, calls)
    ensures Positions(MovedUp(at, first.ToolCallBlock?), [first] + tail, Calls)
    ensures CallsMatch([first] + tail, MovedUp(at, first.ToolCallBlock?),
              (if first.ToolCallBlock? then [CallFact(first.call.callId, first.call.name, first.call.navigation)] else []) + calls)
  {
    PositionsCons(at, first, tail, Calls);
  }

  lemma {:induction false} CallsRecorded(content: seq<Block>) returns (at: seq<nat>)
    ensures Positions(at, content, Calls) && CallsMatch(content, at, CallFacts(content))
  {
    if content == [] {
      at := [];
    } else {
      var first, tail := content[0], content[1..];
      var before := CallsRecorded(tail);
      at := MovedUp(before, first.ToolCallBlock?);
      CallsMatchCons(before, first, tail, CallFacts(tail));
      assert content == [first] + tail;
    }
  }

  /** The results of `content`, with the tools that `context` names. */
  ghost predicate FactsMatch(content: seq<Block>, at: seq<nat>, context: Context, results: seq<ResultFact>)
    requires Positions(at, content, Results)
  {
    |results| == |at| && forall k :: 0 <= k < |at| ==>
      var result := content[at[k]].result;
      results[k] == ResultFact(result.callId, result.observation,
                               if result.callId in context then Some(context[result.callId].tool) else None)
  }

  lemma FactsMatchCons(at: seq<nat>, first: Block, tail: seq<Block>, context: Context, results: seq<ResultFact>)
    requires Positions(at, tail, Results) && FactsMatch(tail, at, context, results)
    ensures Positions(MovedUp(at, first.ToolResultBlock?), [first] + tail, Results)
    ensures FactsMatch([first] + tail, MovedUp(at, first.ToolResultBlock?), context,
              (if first.ToolResultBlock? then
                 [ResultFact(first.result.callId, first.result.observation,
                             if first.result.callId in context then Some(context[first.result.callId].tool) else None)]
               else []) + results)
  {
    PositionsCons(at, first, tail, Results);
  }

  lemma {:induction false} ResultsRecorded(content: seq<Block>, context: Context) returns (at: seq<nat>)
    ensures Positions(at, content, Results) && FactsMatch(content, at, context, ResultFacts(content, context))
  {
    if content == [] {
      at := [];
    } else {
      var first, tail := content[0], content[1..];
      var before := ResultsRecorded(tail, context);
      at := MovedUp(before, first.ToolResultBlock?);
      FactsMatchCons(before, first, tail, context, ResultFacts(tail, context));
      assert content == [first] + tail;
    }
  }

  lemma ResultsNamed(messages: seq<Message>, i: nat, at: seq<nat>, context: Context, results: seq<ResultFact>)
    requires i < |messages| && Remembers(messages, i, context)
    requires Positions(at, messages[i].content, Results) && FactsMatch(messages[i].content, at, context, results)
    ensures ResultsMatch(messages, i, at, results)
  {
  }

  lemma MessageRecorded(messages: seq<Message>, i: nat, context: Context)
    requires i < |messages| && Remembers(messages, i, context)
    ensures RecordsMessage(messages, i, FactsOf(messages[i], context))
  {
    var m := messages[i];
    if PriorFacts(m).None? {
      var calls := CallsRecorded(m.content);
      var results := ResultsRecorded(m.content, context);
      ResultsNamed(messages, i, results, context, ResultFacts(m.content, context));
      assert RecordsCalls(m.content, CallFacts(m.content));
      assert RecordsResults(messages, i, ResultFacts(m.content, context));
    }
  }

  lemma {:induction false} RecordedFrom(messages: seq<Message>, i: nat, context: Context) returns (parts: seq<seq<Fact>>)
    requires i <= |messages| && Remembers(messages, i, context)
    ensures |parts| == |messages| - i && Facts(messages[i..], context) == Flatten(parts)
    ensures forall k :: 0 <= k < |parts| ==> RecordsMessage(messages, i + k, parts[k])
    decreases |messages| - i
  {
    if i == |messages| {
      parts := [];
    } else {
      var part := FactsOf(messages[i], context);
      MessageRecorded(messages, i, context);
      RemembersNext(messages, i, context);
      var rest := RecordedFrom(messages, i + 1, After(messages[i], context));
      parts := [part] + rest;
      FlattenCons(part, rest);
      FactsNext(messages, i, context);
      forall k | 0 <= k < |parts|
        ensures RecordsMessage(messages, i + k, parts[k])
      {
        if k > 0 {
          assert parts[k] == rest[k - 1] && i + k == i + 1 + (k - 1);
        }
      }
    }
  }

  /** One turn of the folding loop. */
  lemma FoldStep(messages: seq<Message>, i: nat, facts: seq<Fact>, context: Context)
    requires i < |messages| && Facts(messages, map[]) == facts + Facts(messages[i..], context)
    ensures Facts(messages, map[])
         == (facts + FactsOf(messages[i], context)) + Facts(messages[i + 1..], After(messages[i], context))
  {
    FactsNext(messages, i, context);
    Joined(facts, FactsOf(messages[i], context), Facts(messages[i + 1..], After(messages[i], context)));
  }

  lemma FactsNext(messages: seq<Message>, i: nat, context: Context)
    requires i < |messages|
    ensures Facts(messages[i..], context)
         == FactsOf(messages[i], context) + Facts(messages[i + 1..], After(messages[i], context))
  {
    assert messages[i..][0] == messages[i] && messages[i..][1..] == messages[i + 1..];
  }

  /** The facts record each message: its role, its calls and results in order, and for each
      result the tool that its call named. */
  lemma FactsRecord(messages: seq<Message>)
    ensures RecordsMessages(messages, Facts(messages, map[]))
  {
    var parts := RecordedFrom(messages, 0, map[]);
    assert messages[0..] == messages;
  }

  lemma SummaryRecords(messages: seq<Message>, digest: Digest)
    ensures IsRecord(Summary(messages, digest), messages)
  {
    FactsRecord(messages);
  }

  // ---- folding in several rounds equals folding at once --------------------

  /** Every result names a call in `known` or one made earlier in the list. */
  predicate Closed(messages: seq<Message>, known: set<string>)
  {
    messages == [] ||
    (ResultIds(messages[0]) <= known && Closed(messages[1..], known + CallIds(messages[0])))
  }

  ghost predicate Agree(known: set<string>, c1: Context, c2: Context)
  {
    forall id :: id in known ==> id in c1 && id in c2 && c1[id] == c2[id]
  }

  lemma {:induction false} FactsSplit(a: seq<Message>, b: seq<Message>, context: Context)
    ensures Facts(a + b, context) == Facts(a, context) + Facts(b, ContextAfter(a, context))
    ensures ContextAfter(a + b, context) == ContextAfter(b, ContextAfter(a, context))
  {
    if a == [] {
      assert a + b == b;
    } else {
      var tail, after := a[1..], After(a[0], context);
      FactsSplit(tail, b, after);
      assert (a + b)[0] == a[0] && (a + b)[1..] == tail + b;
      Joined(FactsOf(a[0], context), Facts(tail, after), Facts(b, ContextAfter(tail, after)));
    }
  }

  lemma {:induction false} RememberAgrees(known: set<string>, calls: seq<CallFact>, c1: Context, c2: Context)
    requires Agree(known, c1, c2)
    ensures Agree(known + (set c | c in calls :: c.callId), Remember(c1, calls), Remember(c2, calls))
    decreases calls
  {
    if calls != [] {
      var c := calls[0];
      RememberAgrees(known + {c.callId}, calls[1..], c1[c.callId := c], c2[c.callId := c]);
      assert (set c | c in calls :: c.callId) == {c.callId} + (set c | c in calls[1..] :: c.callId);
      assert known + (set c | c in calls :: c.callId) == known + {c.callId} + (set c | c in calls[1..] :: c.callId);
    }
  }

  lemma {:induction false} CallFactIds(content: seq<Block>)
    ensures (set c | c in CallFacts(content) :: c.callId) == (set b | b in content && b.ToolCallBlock? :: b.call.callId)
  {
    if content != [] {
      CallFactIds(content[1..]);
      var ids := set b | b in content && b.ToolCallBlock? :: b.call.callId;
      var tailIds := set b | b in content[1..] && b.ToolCallBlock? :: b.call.callId;
      assert content == [content[0]] + content[1..];
      if content[0].ToolCallBlock? {
        var call := content[0].call;
        var first := CallFact(call.callId, call.name, call.navigation);
        assert CallFacts(content) == [first] + CallFacts(content[1..]);
        assert ids == {call.callId} + tailIds;
        assert (set c | c in CallFacts(content) :: c.callId)
            == {call.callId} + (set c | c in CallFacts(content[1..]) :: c.callId);
      } else {
        assert CallFacts(content) == CallFacts(content[1..]);
        assert ids == tailIds;
      }
    }
  }

  lemma {:induction false} ResultFactsAgree(content: seq<Block>, known: set<string>, c1: Context, c2: Context)
    requires forall b :: b in content && b.ToolResultBlock? ==> b.result.callId in known
    requires Agree(known, c1, c2)
    ensures ResultFacts(content, c1) == ResultFacts(content, c2)
  {
    if content != [] {
      ResultFactsAgree(content[1..], known, c1, c2);
    }
  }

  lemma AfterAgrees(m: Message, known: set<string>, c1: Context, c2: Context)
    requires ResultIds(m) <= known && Agree(known, c1, c2)
    ensures FactsOf(m, c1) == FactsOf(m, c2)
    ensures Agree(known + CallIds(m), After(m, c1), After(m, c2))
  {
    forall b | b in m.content && b.ToolResultBlock?
      ensures b.result.callId in known
    {
      assert b.result.callId in ResultIds(m);
    }
    ResultFactsAgree(m.content, known, c1, c2);
    CallFactIds(m.content);
    RememberAgrees(known, CallFacts(m.content), c1, c2);
    if PriorFacts(m).Some? {
      assert CallIds(m) == {};
    }
  }

  /** A closed list is summarised the same whatever calls were seen before it. */
  lemma {:induction false} ClosedFactsIgnoreContext(messages: seq<Message>, known: set<string>, c1: Context, c2: Context)
    requires Closed(messages, known) && Agree(known, c1, c2)
    ensures Facts(messages, c1) == Facts(messages, c2)
  {
    if messages != [] {
      var m := messages[0];
      AfterAgrees(m, known, c1, c2);
      ClosedFactsIgnoreContext(messages[1..], known + CallIds(m), After(m, c1), After(m, c2));
    }
  }

  /** Summarising in two rounds gives the facts of summarising once: no result of
      the later round names a call folded in the earlier one. */
  lemma TwoRoundsAreOne(a: seq<Message>, b: seq<Message>)
    requires Closed(b, {})
    ensures Facts(a + b, map[]) == Facts(a, map[]) + Facts(b, map[])
  {
    FactsSplit(a, b, map[]);
    ClosedFactsIgnoreContext(b, {}, ContextAfter(a, map[]), map[]);
  }

  /** An earlier summary contributes its own facts and no call context. */
  lemma PriorIsInlined(s: Message, messages: seq<Message>)
    requires PriorFacts(s).Some?
    ensures Facts([s] + messages, map[]) == PriorFacts(s).value + Facts(messages, map[])
  {
    assert ([s] + messages)[1..] == messages;
  }

  // ---- whole exchanges are closed ------------------------------------------

  lemma {:induction false} ClosedMonotone(messages: seq<Message>, known: set<string>, more: set<string>)
    requires Closed(messages, known) && known <= more
    ensures Closed(messages, more)
  {
    if messages != [] {
      ClosedMonotone(messages[1..], known + CallIds(messages[0]), more + CallIds(messages[0]));
    }
  }

  lemma {:induction false} ClosedAppend(a: seq<Message>, b: seq<Message>, known: set<string>)
    requires Closed(a, known) && Closed(b, {})
    ensures Closed(a + b, known)
  {
    if a == [] {
      assert a + b == b;
      ClosedMonotone(b, {}, known);
    } else {
      assert (a + b)[1..] == a[1..] + b;
      ClosedAppend(a[1..], b, known + CallIds(a[0]));
    }
  }

  lemma {:induction false} AnsweredClosed(results: seq<Message>, calls: set<string>)
    requires forall m :: m in results ==> ResultIds(m) <= calls
    ensures Closed(results, calls)
  {
    if results != [] {
      AnsweredClosed(results[1..], calls);
      ClosedMonotone(results[1..], calls, calls + CallIds(results[0]));
    }
  }

  lemma ExchangeClosed(g: Group)
    requires IsSolo(g) || IsBatch(g)
    ensures Closed(g, {})
  {
    assert g == [g[0]] + g[1..];
    if IsSolo(g) {
      assert g[1..] == [];
    } else {
      var answers := Answered(g[1..]);
      forall m | m in g[1..]
        ensures ResultIds(m) <= CallIds(g[0])
      {
        var i :| 0 <= i < |g[1..]| && g[1..][i] == m;
        assert answers[i] == ResultIds(m);
      }
      AnsweredClosed(g[1..], CallIds(g[0]));
    }
  }

  lemma {:induction false} ExchangesClosed(groups: seq<Group>)
    requires forall g :: g in groups ==> IsSolo(g) || IsBatch(g)
    ensures Closed(Flatten(groups), {})
  {
    if groups != [] {
      ExchangeClosed(groups[0]);
      ExchangesClosed(groups[1..]);
      ClosedAppend(groups[0], Flatten(groups[1..]), {});
    }
  }
}
