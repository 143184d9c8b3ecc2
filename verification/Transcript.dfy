/** Messages as the context compactor sees them (ports/model.py).
    The text of a block stands for its decoded JSON value, so encoding and
    decoding is an exact round trip. */
module Transcript {
  import opened Common

  datatype Role = System | User | Assistant | Tool

  datatype Scaffolding = Ordinary | Steering | ContinuationInput | OtherScaffolding

  /** `navigation` stands for the bounded argument facts a summary keeps. */
  datatype ToolCall = ToolCall(callId: string, name: string, navigation: nat)

  /** `observation` stands for every summarised field of a result except `tool`. */
  datatype ToolResult = ToolResult(callId: string, observation: nat)

  datatype CallFact = CallFact(callId: string, tool: string, navigation: nat)

  datatype ResultFact = ResultFact(callId: string, observation: nat, tool: Option<string>)

  datatype Fact = Fact(role: Role, calls: seq<CallFact>, results: seq<ResultFact>)

  // ---- the session projection a message may carry --------------------------

  /** One entry of `recent_messages`; `Foreign` is a list item that is not an object. */
  datatype Row =
    | Row(task: Option<string>, turn: Option<string>, fromUser: bool, sequence: Option<int>, payload: nat)
    | Foreign(payload: nat)

  /** `Missing` also covers every falsy value of `recent_messages`. */
  datatype RowList = Missing | Rows(rows: seq<Row>) | NotAList

  datatype Interval = Interval(low: int, high: int)

  /** `sequences` lists single events, `ranges` intervals of them. */
  datatype EarlierSummary =
    EarlierSummary(messageCount: int, turnCount: int, ranges: seq<Interval>, sequences: set<int>)

  /** One entry of `recent_task_summaries`. */
  datatype TaskRecord =
    | TaskRecord(task: Option<string>, turn: Option<string>, payload: nat)
    | ForeignRecord(payload: nat)

  datatype RecordList = NoRecords | Records(list: seq<TaskRecord>) | NotRecords

  /** The parts of `historical_investigation`. */
  datatype Investigation = Investigation(resources: RecordList, questions: RecordList)

  /** The `compaction` block: what was done to the body last. */
  datatype Note =
    | NoNote
    | SessionNote(floor: nat, ceiling: nat, pinned: set<string>)
    | TurnNote(previews: bool, omitReads: bool)
    | OtherNote(payload: nat)

  /** Which rendering of the remaining fields the body holds. */
  datatype Rendering =
    | Original(payload: nat)
    | TurnsCompacted(payload: nat, keep: nat, previews: bool, omitReads: bool)

  datatype SessionBody = SessionBody(
    managed: bool,
    recent: RowList,
    pinned: seq<string>,
    sourceSequences: set<int>,
    earlier: Option<EarlierSummary>,
    summaries: RecordList,
    investigation: Option<Investigation>,
    note: Note,
    rendering: Rendering)

  // ---- messages ------------------------------------------------------------

  datatype Text =
    | Plain(text: string)
    | SummaryJson(sourceMessageCount: nat, facts: seq<Fact>)
    | SessionJson(body: SessionBody)

  datatype Block =
    | TextBlock(text: Text)
    | ToolCallBlock(call: ToolCall)
    | ToolResultBlock(result: ToolResult)
    | OpaqueBlock(payload: nat)

  datatype Message = Message(id: string, role: Role, content: seq<Block>, scaffolding: Scaffolding)

  const SUMMARY_PREFIX: string := "context-summary-"
  const SESSION_PREFIX: string := "session-context-"
  const COMPACTED: string := "-compacted"

  predicate HasPrefix(id: string, prefix: string)
  {
    prefix <= id
  }

  function CallIds(m: Message): (ids: set<string>)
  {
    set b | b in m.content && b.ToolCallBlock? :: b.call.callId
  }

  function ResultIds(m: Message): (ids: set<string>)
  {
    set b | b in m.content && b.ToolResultBlock? :: b.result.callId
  }

  /** An assistant message that calls tools: the head of an atomic exchange. */
  predicate IsCallMessage(m: Message)
  {
    m.role == Assistant && CallIds(m) != {}
  }

  function Texts(content: seq<Block>): (texts: seq<Text>)
  {
    if content == [] then []
    else (if content[0].TextBlock? then [content[0].text] else []) + Texts(content[1..])
  }

  /** The decoded session projection of a message, if it is one. */
  function SessionBodyOf(m: Message): (body: Option<SessionBody>)
  {
    var texts := Texts(m.content);
    if HasPrefix(m.id, SESSION_PREFIX) && |texts| == 1 && texts[0].SessionJson?
    then Some(texts[0].body)
    else None
  }

  /** A rewritten session projection: one text block, same role and scaffolding. */
  function WithBody(m: Message, id: string, body: SessionBody): (r: Message)
  {
    Message(id, m.role, [TextBlock(SessionJson(body))], m.scaffolding)
  }

  lemma WithBodyReadsBack(m: Message, id: string, body: SessionBody)
    requires HasPrefix(id, SESSION_PREFIX)
    ensures SessionBodyOf(WithBody(m, id, body)) == Some(body)
    ensures CallIds(WithBody(m, id, body)) == {} && ResultIds(WithBody(m, id, body)) == {}
  {
    var content := [TextBlock(SessionJson(body))];
    assert content[1..] == [];
    assert Texts(content) == [SessionJson(body)];
  }

  function RecordsOf(part: RecordList): (list: seq<TaskRecord>)
  {
    if part.Records? then part.list else []
  }

  function RowsOf(list: RowList): (rows: seq<Row>)
  {
    if list.Rows? then list.rows else []
  }
}
