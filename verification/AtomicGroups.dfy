/** Splitting a transcript into atomic tool exchanges (core/context.py, _atomic_groups). */
module AtomicGroups {
  import opened Common
  import opened Transcript

  type Group = seq<Message>

  // ---- what the loop computes ----------------------------------------------

  /** How many leading tool messages answer calls still `expected`. */
  function TakeResults(messages: seq<Message>, expected: set<string>): (n: nat)
    ensures n <= |messages|
  {
    if messages == [] || expected == {} || messages[0].role != Tool then 0
    else
      var ids := ResultIds(messages[0]);
      if ids == {} || !(ids <= expected) then 0
      else 1 + TakeResults(messages[1..], expected - ids)
  }

  function GroupLength(messages: seq<Message>): (n: nat)
    requires messages != []
    ensures 1 <= n <= |messages|
  {
    if IsCallMessage(messages[0]) then 1 + TakeResults(messages[1..], CallIds(messages[0])) else 1
  }

  function Groups(messages: seq<Message>): (groups: seq<Group>)
    ensures Flatten(groups) == messages
    ensures forall g :: g in groups ==> g != []
  {
    if messages == [] then []
    else
      var n := GroupLength(messages);
      assert messages == messages[..n] + messages[n..];
      [messages[..n]] + Groups(messages[n..])
  }

  // ---- what a group is, in terms of the messages alone -----------------------

  /** The calls of the group's first message that no later message of it answers. */
  function OpenCalls(g: Group): (ids: set<string>)
    requires g != []
  {
    set id | id in CallIds(g[0]) && forall i :: 1 <= i < |g| ==> id !in ResultIds(g[i])
  }

  /** The message answers calls of the group that are still open, and nothing else. */
  predicate Continues(g: Group, m: Message)
    requires g != []
  {
    g[0].role == Assistant && m.role == Tool && ResultIds(m) != {} && ResultIds(m) <= OpenCalls(g)
  }

  ghost predicate IsExchange(g: Group)
  {
    g != [] && forall i :: 1 <= i < |g| ==> Continues(g[..i], g[i])
  }

  ghost predicate Stops(g: Group, rest: seq<Message>)
    requires g != []
  {
    rest != [] ==> !Continues(g, rest[0])
  }

  /** The messages in order, cut before every message that does not continue its group. */
  ghost predicate AreExchanges(messages: seq<Message>, groups: seq<Group>)
  {
    && Flatten(groups) == messages && (forall k :: 0 <= k < |groups| ==> IsExchange(groups[k]))
    && forall k :: 0 < k < |groups| ==> !Continues(groups[k - 1], groups[k][0])
  }

  lemma OneMoreOpen(g: Group, m: Message, id: string)
    requires g != []
    ensures id in OpenCalls(g + [m]) <==> id in OpenCalls(g) && id !in ResultIds(m)
  {
    var more := g + [m];
    assert more[|g|] == m && forall i :: 1 <= i < |g| ==> more[i] == g[i];
  }

  lemma OneMore(g: Group, m: Message)
    requires IsExchange(g) && Continues(g, m)
    ensures IsExchange(g + [m]) && OpenCalls(g + [m]) == OpenCalls(g) - ResultIds(m)
  {
    var more := g + [m];
    forall i | 1 <= i < |more|
      ensures Continues(more[..i], more[i])
    {
      if i < |g| {
        assert more[..i] == g[..i] && more[i] == g[i];
      } else {
        assert more[..i] == g;
      }
    }
    forall id
      ensures id in OpenCalls(more) <==> id in OpenCalls(g) && id !in ResultIds(m)
    {
      OneMoreOpen(g, m, id);
    }
  }

  /** The scan takes the messages that continue the group, up to the first that does not. */
  lemma {:induction false} TakesWhatContinues(g: Group, rest: seq<Message>)
    requires IsExchange(g) && g[0].role == Assistant
    ensures var n := TakeResults(rest, OpenCalls(g));
            IsExchange(g + rest[..n]) && Stops(g + rest[..n], rest[n..])
    decreases |rest|
  {
    var n := TakeResults(rest, OpenCalls(g));
    if n == 0 {
      assert g + rest[..0] == g;
    } else {
      OneMore(g, rest[0]);
      TakesWhatContinues(g + [rest[0]], rest[1..]);
      assert g + [rest[0]] + rest[1..][..n - 1] == g + rest[..n] && rest[1..][n - 1..] == rest[n..];
    }
  }

  lemma FirstIsExchange(messages: seq<Message>)
    requires messages != []
    ensures var n := GroupLength(messages); IsExchange(messages[..n]) && Stops(messages[..n], messages[n..])
  {
    var n, head := GroupLength(messages), [messages[0]];
    assert OpenCalls(head) == CallIds(messages[0]) && messages[..1] == head;
    if IsCallMessage(messages[0]) {
      TakesWhatContinues(head, messages[1..]);
      assert head + messages[1..][..n - 1] == messages[..n] && messages[1..][n - 1..] == messages[n..];
    }
  }

  lemma {:induction false} GroupsAreExchanges(messages: seq<Message>)
    ensures AreExchanges(messages, Groups(messages))
    decreases |messages|
  {
    if messages != [] {
      var first, rest := FirstGroup(messages);
      GroupsAreExchanges(rest);
      FirstOfGroups(rest);
      ExchangesCons(first, rest, Groups(rest));
    }
  }

  lemma FirstGroup(messages: seq<Message>) returns (first: Group, rest: seq<Message>)
    requires messages != []
    ensures messages == first + rest && |rest| < |messages| && Groups(messages) == [first] + Groups(rest)
    ensures IsExchange(first) && Stops(first, rest)
  {
    var n := GroupLength(messages);
    FirstIsExchange(messages);
    first, rest := messages[..n], messages[n..];
  }

  lemma FirstOfGroups(messages: seq<Message>)
    ensures Groups(messages) != [] ==>
              messages != [] && Groups(messages)[0] != [] && Groups(messages)[0][0] == messages[0]
  {
  }

  lemma ExchangesCons(g: Group, rest: seq<Message>, groups: seq<Group>)
    requires IsExchange(g) && AreExchanges(rest, groups) && Stops(g, rest)
    requires groups != [] ==> rest != [] && groups[0] != [] && groups[0][0] == rest[0]
    ensures AreExchanges(g + rest, [g] + groups)
  {
    var all := [g] + groups;
    FlattenCons(g, groups);
    assert all[0] == g && forall k :: 0 < k < |all| ==> all[k] == groups[k - 1];
  }

  /** The inner loop has taken the messages up to `index`, and calls `expected` are open. */
  ghost predicate Scanned(messages: seq<Message>, start: nat, index: nat, expected: set<string>, group: Group)
  {
    && start < index <= |messages| && group == messages[start..index]
    && GroupLength(messages[start..]) == |group| + TakeResults(messages[index..], expected)
  }

  lemma ScanStarts(messages: seq<Message>, start: nat)
    requires start < |messages| && IsCallMessage(messages[start])
    ensures Scanned(messages, start, start + 1, CallIds(messages[start]), [messages[start]])
  {
    assert messages[start..][1..] == messages[start + 1..];
  }

  lemma ScanStep(messages: seq<Message>, start: nat, index: nat, expected: set<string>, group: Group)
    requires Scanned(messages, start, index, expected, group) && index < |messages| && messages[index].role == Tool
    requires ResultIds(messages[index]) != {} && ResultIds(messages[index]) <= expected
    ensures Scanned(messages, start, index + 1, expected - ResultIds(messages[index]), group + [messages[index]])
  {
    assert messages[index..][1..] == messages[index + 1..];
    assert messages[start..index + 1] == messages[start..index] + [messages[index]];
  }

  lemma ScanEnds(messages: seq<Message>, start: nat, index: nat, expected: set<string>, group: Group)
    requires Scanned(messages, start, index, expected, group)
    requires index == |messages| || expected == {} || messages[index].role != Tool
             || ResultIds(messages[index]) == {} || !(ResultIds(messages[index]) <= expected)
    ensures |group| == GroupLength(messages[start..])
  {
  }

  /** The inner loop: the exchange that starts at `start`. */
  method TakeExchange(messages: seq<Message>, start: nat) returns (group: Group)
    requires start < |messages| && IsCallMessage(messages[start])
    ensures |group| == GroupLength(messages[start..])
    ensures start + |group| <= |messages| && group == messages[start..start + |group|]
  {
    group := [messages[start]];
    var expected := CallIds(messages[start]);
    var index := start + 1;
    ScanStarts(messages, start);
    while index < |messages| && messages[index].role == Tool
      invariant expected != {} && Scanned(messages, start, index, expected, group)
      decreases |messages| - index
    {
      var ids := ResultIds(messages[index]);
      if ids == {} || !(ids <= expected) {
        break;
      }
      ScanStep(messages, start, index, expected, group);
      group := group + [messages[index]];
      expected := expected - ids;
      index := index + 1;
      if expected == {} {
        break;
      }
    }
    ScanEnds(messages, start, index, expected, group);
  }

  method SplitIntoGroups(messages: seq<Message>) returns (groups: seq<Group>)
    ensures groups == Groups(messages)
    // in terms of the messages alone
    ensures AreExchanges(messages, groups)
  {
    groups := TakeGroups(messages);
    GroupsAreExchanges(messages);
  }

  /** The outer loop. */
  method TakeGroups(messages: seq<Message>) returns (groups: seq<Group>)
    ensures groups == Groups(messages)
  {
    groups := [];
    var index := 0;
    ghost var rest := Groups(messages);
    assert messages[0..] == messages;
    while index < |messages|
      invariant 0 <= index <= |messages|
      invariant rest == Groups(messages[index..]) && Groups(messages) == groups + rest
    {
      var group := NextGroup(messages, index);
      groups := groups + [group];
      index := index + |group|;
      rest := rest[1..];
    }
  }

  /** One turn of the outer loop. */
  method NextGroup(messages: seq<Message>, index: nat) returns (group: Group)
    requires index < |messages|
    ensures 0 < |group| && index + |group| <= |messages|
    ensures Groups(messages[index..]) == [group] + Groups(messages[index + |group|..])
  {
    if IsCallMessage(messages[index]) {
      group := TakeExchange(messages, index);
    } else {
      group := [messages[index]];
    }
    GroupsUnfold(messages, index, group);
  }

  lemma GroupsUnfold(messages: seq<Message>, index: nat, group: Group)
    requires index < |messages| && |group| == GroupLength(messages[index..])
    requires index + |group| <= |messages| && group == messages[index..index + |group|]
    ensures Groups(messages[index..]) == [group] + Groups(messages[index + |group|..])
  {
    var rest := messages[index..];
    assert rest[..|group|] == group && rest[|group|..] == messages[index + |group|..];
  }

  // ---- the tool protocol, stated on its own --------------------------------

  /** Ids of tool messages that answer `calls`: no message is empty, no id is
      answered twice and no foreign id appears. */
  ghost predicate Answers(answers: seq<set<string>>, calls: set<string>)
  {
    && (forall i :: 0 <= i < |answers| ==> answers[i] != {} && answers[i] <= calls)
    && (forall i, j :: 0 <= i < j < |answers| ==> answers[i] !! answers[j])
  }

  function Union(answers: seq<set<string>>): (all: set<string>)
    ensures forall i :: 0 <= i < |answers| ==> answers[i] <= all
  {
    if answers == [] then {} else answers[0] + Union(answers[1..])
  }

  function Answered(results: seq<Message>): (answers: seq<set<string>>)
    ensures |answers| == |results|
    ensures forall i :: 0 <= i < |results| ==> answers[i] == ResultIds(results[i])
  {
    seq(|results|, i requires 0 <= i < |results| => ResultIds(results[i]))
  }

  predicate NoToolBlocks(m: Message)
  {
    CallIds(m) == {} && ResultIds(m) == {}
  }

  /** A message outside every exchange. */
  predicate IsSolo(g: Group)
  {
    |g| == 1 && g[0].role != Tool && NoToolBlocks(g[0])
  }

  /** An assistant call message directly followed by tool messages answering it. */
  ghost predicate IsBatch(g: Group)
  {
    && g != [] && IsCallMessage(g[0]) && ResultIds(g[0]) == {}
    && (forall i :: 1 <= i < |g| ==> g[i].role == Tool && CallIds(g[i]) == {})
    && Answers(Answered(g[1..]), CallIds(g[0]))
  }

  /** Every call of the batch is answered: the results partition the calls. */
  ghost predicate IsComplete(g: Group)
  {
    IsSolo(g) || (IsBatch(g) && Union(Answered(g[1..])) == CallIds(g[0]))
  }

  /** The protocol: exchanges follow one another, only the last may be unfinished. */
  ghost predicate IsProtocol(groups: seq<Group>)
  {
    && (forall i :: 0 <= i < |groups| ==> IsSolo(groups[i]) || IsBatch(groups[i]))
    && (forall i :: 0 <= i < |groups| - 1 ==> IsComplete(groups[i]))
  }

  // ---- grouping inverts concatenation --------------------------------------

  lemma AnswersTail(answers: seq<set<string>>, calls: set<string>)
    requires answers != [] && Answers(answers, calls)
    ensures Answers(answers[1..], calls - answers[0])
    ensures Union(answers) == calls <==> Union(answers[1..]) == calls - answers[0]
  {
    var tail := answers[1..];
    UnionDisjoint(tail, answers[0]);
    UnionWithin(tail, calls - answers[0]);
  }

  lemma {:induction false} UnionDisjoint(answers: seq<set<string>>, s: set<string>)
    requires forall i :: 0 <= i < |answers| ==> answers[i] !! s
    ensures Union(answers) !! s
  {
    if answers != [] {
      UnionDisjoint(answers[1..], s);
    }
  }

  lemma {:induction false} UnionWithin(answers: seq<set<string>>, s: set<string>)
    requires forall i :: 0 <= i < |answers| ==> answers[i] <= s
    ensures Union(answers) <= s
  {
    if answers != [] {
      UnionWithin(answers[1..], s);
    }
  }

  /** The scan takes exactly the answers of an exchange, and stops where they end. */
  lemma {:induction false} TakesTheAnswers(results: seq<Message>, rest: seq<Message>, calls: set<string>)
    requires forall m :: m in results ==> m.role == Tool
    requires Answers(Answered(results), calls)
    requires rest == [] || Union(Answered(results)) == calls
    ensures TakeResults(results + rest, calls) == |results|
  {
    if results == [] {
      assert results + rest == rest;
    } else {
      var answers := Answered(results);
      assert answers[0] == ResultIds(results[0]) && answers[0] <= calls;
      assert Answered(results[1..]) == answers[1..];
      AnswersTail(answers, calls);
      TakesTheAnswers(results[1..], rest, calls - answers[0]);
      assert (results + rest)[1..] == results[1..] + rest;
    }
  }

  lemma ProtocolTail(groups: seq<Group>)
    requires groups != [] && IsProtocol(groups)
    ensures IsProtocol(groups[1..])
  {
  }

  /** On a transcript that follows the protocol the loop recovers exactly its exchanges. */
  lemma {:induction false} GroupsRecoverExchanges(groups: seq<Group>)
    requires IsProtocol(groups)
    ensures Groups(Flatten(groups)) == groups
  {
    if groups != [] {
      var g, rest := groups[0], Flatten(groups[1..]);
      var messages := g + rest;
      assert messages[0] == g[0];
      if !IsSolo(g) {
        assert messages[1..] == g[1..] + rest;
        if rest != [] {
          assert groups[1..] != [] && IsComplete(groups[0]);
        }
        TakesTheAnswers(g[1..], rest, CallIds(g[0]));
      }
      assert GroupLength(messages) == |g|;
      assert messages[..|g|] == g && messages[|g|..] == rest;
      ProtocolTail(groups);
      GroupsRecoverExchanges(groups[1..]);
    }
  }
}
