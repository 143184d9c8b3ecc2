/** The durable form of an agent turn (core/agent_loop.py): a versioned encoding with an
    integrity hash, tolerance for fields older writers did not know, and the migration of
    version 1. Messages and tool calls have codecs of their own, which are parameters. */
module CheckpointCodec {
  import opened Common

  /** A float is its bit pattern. */
  datatype Json =
    | Null | Bool(b: bool) | Num(n: int) | Float(bits: int) | Str(s: string)
    | List(items: seq<Json>) | Obj(fields: map<string, Json>)

  /** The fields that are read and written by themselves. */
  datatype Field =
    | TaskId | TurnId | Revision | ModelCalls | ToolCalls | InputTokens | OutputTokens
    | MaxModelCalls | MaxToolCalls | MaxOutputTokens | ToolTimeoutSeconds | ReasoningEffort | ModelProfileId
    | FinalizationState | ModelBudgetRenewalCount | ModelBudgetTotalGranted
    | WorkspaceFingerprint | EffectiveConfigHash | ToolsetHash | PromptManifestHash | SessionId
    | SessionContextHash | WorkingMemoryHash | LastSteeringInboundSequence | GoalRevision
    | ActionProgress | EvidenceInventory | ReadHitsState | ArtifactReadState | ProgressiveScopeState
    | ExplorationBudgetState | StopOrPivotState | RejectionLoopState | TaskSpecRevision | TaskSpecHash
    | PendingUserAction

  /** The names a payload can hold at its top level. */
  datatype Key =
    | Plain(field: Field)
    | SchemaVersion | CheckpointHash | Messages | PendingToolCalls | SeenCallIds
    | ExecutionFocus | ActiveOutcomeIds | ToolBatch | EnabledSkills
    | EvidenceQuestionState | CompletionReadinessState | EvidenceRelationState | ExplorationOutcomeState
    | Other(name: string)

  type Payload = map<Key, Json>

  /** How a plain field is read: what it must be, and what it is when it is missing. */
  datatype Kind =
    | RequiredText | RequiredInt | RequiredFloat
    | Text | Int(default: int) | NullableText | Raw | Object

  function KindOf(f: Field): (kind: Kind)
  {
    match f
    case TaskId | TurnId => RequiredText
    case Revision | ModelCalls | ToolCalls | InputTokens | OutputTokens => RequiredInt
    case MaxModelCalls | MaxToolCalls | MaxOutputTokens => RequiredInt
    case ToolTimeoutSeconds => RequiredFloat
    case ReasoningEffort => NullableText
    case ModelProfileId => Raw
    case ModelBudgetRenewalCount | ModelBudgetTotalGranted => Int(0)
    case LastSteeringInboundSequence | TaskSpecRevision => Int(0)
    case GoalRevision => Int(1)
    case WorkspaceFingerprint | EffectiveConfigHash | ToolsetHash | PromptManifestHash => Text
    case SessionId | SessionContextHash | WorkingMemoryHash | TaskSpecHash => Text
    case FinalizationState | ActionProgress | EvidenceInventory | ReadHitsState | ArtifactReadState => Object
    case ProgressiveScopeState | ExplorationBudgetState | StopOrPivotState | RejectionLoopState => Object
    case PendingUserAction => Object
  }

  /** Fields that came after the first version 2 writers. */
  predicate IsEvolved(k: Key)
  {
    match k
    case Plain(f) => IsEvolvedField(f)
    case ExecutionFocus | ActiveOutcomeIds | ToolBatch => true
    case _ => false
  }

  predicate IsEvolvedField(f: Field)
  {
    match f
    case ModelProfileId | RejectionLoopState | ModelBudgetRenewalCount | ModelBudgetTotalGranted => true
    case TaskSpecRevision | TaskSpecHash | PendingUserAction => true
    case _ => false
  }

  /** Projections only version 1 knew. */
  predicate IsRetired(k: Key)
  {
    match k
    case EvidenceQuestionState | CompletionReadinessState | EvidenceRelationState | ExplorationOutcomeState => true
    case _ => false
  }

  const RETIRED_CALL_FIELDS: set<string> := {"evidence_question", "evidence_intent"}

  // ---- what is taken as given ----------------------------------------------

  /** Python's `str`, `int`, `float` and iteration on a JSON value; the codecs of
      messages and calls; the canonical hash. */
  datatype World<!M, !C> = World(
    text: Json -> string, number: Json -> Option<int>, float: Json -> Option<int>, each: Json -> Option<seq<Json>>,
    readMessage: Json -> Option<M>, writeMessage: M -> Json,
    readCall: Json -> Option<C>, writeCall: C -> Json, callId: C -> string,
    hash: Payload -> string)

  ghost predicate Faithful<M(!new), C(!new)>(w: World<M, C>)
  {
    && (forall s :: w.text(Str(s)) == s) && (forall n :: w.number(Num(n)) == Some(n))
    && (forall x :: w.float(Float(x)) == Some(x)) && (forall l :: w.each(List(l)) == Some(l))
    && (forall m :: w.readMessage(w.writeMessage(m)) == Some(m))
    && (forall c :: w.readCall(w.writeCall(c)) == Some(c))
  }

  ghost predicate InjectiveHash<M, C>(w: World<M, C>)
  {
    forall a: Payload, b: Payload :: w.hash(a) == w.hash(b) ==> a == b
  }

  // ---- lists ---------------------------------------------------------------

  function ReadAll<T>(items: seq<Json>, read: Json -> Option<T>): (r: Option<seq<T>>)
  {
    if items == [] then Some([])
    else
      match read(items[0])
      case None => None
      case Some(x) =>
        match ReadAll(items[1..], read)
        case None => None
        case Some(rest) => Some([x] + rest)
  }

  function WriteAll<T>(xs: seq<T>, write: T -> Json): (items: seq<Json>)
  {
    seq(|xs|, i requires 0 <= i < |xs| => write(xs[i]))
  }

  lemma {:induction false} ReadsBack<T(!new)>(xs: seq<T>, write: T -> Json, read: Json -> Option<T>)
    requires forall x :: read(write(x)) == Some(x)
    ensures ReadAll(WriteAll(xs, write), read) == Some(xs)
  {
    if xs != [] {
      ReadsBack(xs[1..], write, read);
      assert WriteAll(xs, write)[1..] == WriteAll(xs[1..], write);
      assert WriteAll(xs, write)[0] == write(xs[0]);
      assert xs == [xs[0]] + xs[1..];
    }
  }

  function Texts<M, C>(w: World<M, C>, items: seq<Json>): (texts: seq<string>)
  {
    seq(|items|, i requires 0 <= i < |items| => w.text(items[i]))
  }

  function Strings(texts: seq<string>): (items: seq<Json>)
  {
    seq(|texts|, i requires 0 <= i < |texts| => Str(texts[i]))
  }

  lemma TextsReadBack<M(!new), C(!new)>(w: World<M, C>, texts: seq<string>)
    requires Faithful(w)
    ensures Texts(w, Strings(texts)) == texts
  {
  }

  // ---- plain fields --------------------------------------------------------

  predicate OfKind(kind: Kind, value: Json)
  {
    match kind
    case RequiredText | Text => value.Str?
    case RequiredInt | Int(_) => value.Num?
    case RequiredFloat => value.Float?
    case NullableText => value.Null? || value.Str?
    case Object => value.Obj?
    case Raw => true
  }

  function NumberJson(n: Option<int>): (r: Option<Json>)
  {
    if n.Some? then Some(Num(n.value)) else None
  }

  /** None where the source raises. */
  function ReadPlain<M, C>(w: World<M, C>, kind: Kind, value: Option<Json>): (r: Option<Json>)
    ensures r.Some? ==> OfKind(kind, r.value)
  {
    match kind
    case RequiredText => if value.Some? then Some(Str(w.text(value.value))) else None
    case RequiredInt => if value.Some? then NumberJson(w.number(value.value)) else None
    case RequiredFloat =>
      if value.Some? && w.float(value.value).Some? then Some(Float(w.float(value.value).value)) else None
    case Text => Some(Str(if value.Some? then w.text(value.value) else ""))
    case Int(default) => if value.Some? then NumberJson(w.number(value.value)) else Some(Num(default))
    case NullableText => Some(if value.Some? && !value.value.Null? then Str(w.text(value.value)) else Null)
    case Raw => Some(if value.Some? then value.value else Null)
    case Object => Some(if value.Some? && value.value.Obj? then value.value else Obj(map[]))
  }

  function ValueAt(data: Payload, k: Key): (v: Option<Json>)
  {
    if k in data then Some(data[k]) else None
  }

  function PlainAt<M, C>(w: World<M, C>, data: Payload, f: Field): (r: Option<Json>)
  {
    ReadPlain(w, KindOf(f), ValueAt(data, Plain(f)))
  }

  lemma PlainReadsBack<M(!new), C(!new)>(w: World<M, C>, kind: Kind, value: Json)
    requires Faithful(w) && OfKind(kind, value)
    ensures ReadPlain(w, kind, Some(value)) == Some(value)
  {
  }

  // ---- tool batches --------------------------------------------------------

  datatype Status = Accepted | Executing | AwaitingApproval | Closed | Cancelled | Reconciling

  function StatusName(s: Status): (name: string)
  {
    match s
    case Accepted => "ACCEPTED"
    case Executing => "EXECUTING"
    case AwaitingApproval => "AWAITING_APPROVAL"
    case Closed => "CLOSED"
    case Cancelled => "CANCELLED"
    case Reconciling => "RECONCILING"
  }

  function StatusOf(name: string): (s: Option<Status>)
    ensures s.Some? ==> StatusName(s.value) == name
  {
    if name == "ACCEPTED" then Some(Accepted)
    else if name == "EXECUTING" then Some(Executing)
    else if name == "AWAITING_APPROVAL" then Some(AwaitingApproval)
    else if name == "CLOSED" then Some(Closed)
    else if name == "CANCELLED" then Some(Cancelled)
    else if name == "RECONCILING" then Some(Reconciling)
    else None
  }

  lemma StatusReadsBack(s: Status)
    ensures StatusOf(StatusName(s)) == Some(s)
  {
  }

  datatype Batch<C> = Batch(
    batchId: string, source: string, calls: seq<C>, pending: seq<string>, status: Status,
    taskSpecRevision: int, focusRevision: int, legacyFocus: bool)

  predicate ValidBatch<C>(b: Batch<C>, callId: C -> string)
  {
    && b.batchId != "" && b.source != "" && b.calls != []
    && (forall i, j :: 0 <= i < j < |b.calls| ==> callId(b.calls[i]) != callId(b.calls[j]))
    && (forall p :: p in b.pending ==> exists i :: 0 <= i < |b.calls| && callId(b.calls[i]) == p)
    && (b.status == Closed ==> b.pending == [])
  }

  predicate IsOpen<C>(b: Batch<C>)
  {
    b.status != Closed && b.status != Cancelled
  }

  function CallIds<C>(calls: seq<C>, callId: C -> string): (ids: seq<string>)
  {
    seq(|calls|, i requires 0 <= i < |calls| => callId(calls[i]))
  }

  /** None where the constructor raises. */
  function WithPending<C>(b: Batch<C>, pending: seq<C>, status: Option<Status>, callId: C -> string): (r: Option<Batch<C>>)
    ensures r.Some? ==> ValidBatch(r.value, callId)
  {
    var resolved := if status.Some? then status.value else if pending != [] then Executing else Closed;
    var next := b.(pending := CallIds(pending, callId), status := resolved);
    if ValidBatch(next, callId) then Some(next) else None
  }

  /** A batch is closed exactly when nothing is pending, keeps its identity and calls, and
      refuses calls that are not its own. */
  lemma PendingDecidesStatus<C>(b: Batch<C>, pending: seq<C>, callId: C -> string)
    requires ValidBatch(b, callId)
    ensures WithPending(b, pending, None, callId).Some?
            <==> forall p :: p in CallIds(pending, callId) ==> p in CallIds(b.calls, callId)
    ensures WithPending(b, pending, None, callId).Some? ==>
      var r := WithPending(b, pending, None, callId).value;
      r.batchId == b.batchId && r.calls == b.calls && (IsOpen(r) <==> pending != [])
  {
    forall p | p in CallIds(b.calls, callId)
      ensures exists i :: 0 <= i < |b.calls| && callId(b.calls[i]) == p
    {
      var i :| 0 <= i < |CallIds(b.calls, callId)| && CallIds(b.calls, callId)[i] == p;
    }
    forall i | 0 <= i < |b.calls|
      ensures callId(b.calls[i]) in CallIds(b.calls, callId)
    {
      assert CallIds(b.calls, callId)[i] == callId(b.calls[i]);
    }
  }

  function WriteBatch<M, C>(w: World<M, C>, b: Batch<C>): (fields: map<string, Json>)
  {
    var fields := map[
      "batch_id" := Str(b.batchId), "source_message_id" := Str(b.source),
      "calls" := List(WriteAll(b.calls, w.writeCall)), "pending_call_ids" := List(Strings(b.pending)),
      "status" := Str(StatusName(b.status)), "task_spec_revision" := Num(b.taskSpecRevision)];
    if b.legacyFocus then fields["execution_focus_revision" := Num(b.focusRevision)] else fields
  }

  function FieldAt(fields: map<string, Json>, name: string): (v: Option<Json>)
  {
    if name in fields then Some(fields[name]) else None
  }

  function IntAt<M, C>(w: World<M, C>, v: Option<Json>, default: int): (n: Option<int>)
  {
    if v.Some? then w.number(v.value) else Some(default)
  }

  function ReadBatch<M, C>(w: World<M, C>, fields: map<string, Json>): (r: Option<Batch<C>>)
    ensures r.Some? ==> ValidBatch(r.value, w.callId)
    ensures r.Some? && !r.value.legacyFocus ==> r.value.focusRevision == 0
  {
    match (FieldAt(fields, "calls"), FieldAt(fields, "pending_call_ids"), FieldAt(fields, "batch_id"),
           FieldAt(fields, "source_message_id"), FieldAt(fields, "status"))
    case (Some(List(rawCalls)), Some(List(rawPending)), Some(id), Some(source), Some(status)) =>
      BatchOf(w, id, source, ReadAll(rawCalls, w.readCall), Texts(w, rawPending), StatusOf(w.text(status)),
              IntAt(w, FieldAt(fields, "task_spec_revision"), 0), FieldAt(fields, "execution_focus_revision"))
    case _ => None
  }

  function BatchOf<M, C>(w: World<M, C>, id: Json, source: Json, calls: Option<seq<C>>, pending: seq<string>,
                         status: Option<Status>, revision: Option<int>, focus: Option<Json>): (r: Option<Batch<C>>)
    ensures r.Some? ==> ValidBatch(r.value, w.callId)
    ensures r.Some? && !r.value.legacyFocus ==> r.value.focusRevision == 0
  {
    var focusRevision := IntAt(w, focus, 0);
    if calls.None? || status.None? || revision.None? || focusRevision.None? then None
    else
      var b := Batch(w.text(id), w.text(source), calls.value, pending, status.value, revision.value,
                     focusRevision.value, focus.Some?);
      if ValidBatch(b, w.callId) then Some(b) else None
  }

  /** What survives encoding: the focus revision only with its legacy flag. */
  function NormalBatch<C>(b: Batch<C>): (r: Batch<C>)
  {
    if b.legacyFocus then b else b.(focusRevision := 0)
  }

  lemma BatchFields<M, C>(w: World<M, C>, b: Batch<C>)
    ensures var f := WriteBatch(w, b);
            && FieldAt(f, "batch_id") == Some(Str(b.batchId)) && FieldAt(f, "source_message_id") == Some(Str(b.source))
            && FieldAt(f, "calls") == Some(List(WriteAll(b.calls, w.writeCall)))
            && FieldAt(f, "pending_call_ids") == Some(List(Strings(b.pending)))
            && FieldAt(f, "status") == Some(Str(StatusName(b.status)))
            && FieldAt(f, "task_spec_revision") == Some(Num(b.taskSpecRevision))
            && FieldAt(f, "execution_focus_revision") == if b.legacyFocus then Some(Num(b.focusRevision)) else None
  {
  }

  lemma BatchReadsBack<M(!new), C(!new)>(w: World<M, C>, b: Batch<C>)
    requires Faithful(w) && ValidBatch(b, w.callId)
    ensures ReadBatch(w, WriteBatch(w, b)) == Some(NormalBatch(b))
  {
    BatchFields(w, b);
    ReadsBack(b.calls, w.writeCall, w.readCall);
    TextsReadBack(w, b.pending);
    StatusReadsBack(b.status);
  }

  // ---- checkpoints ---------------------------------------------------------

  datatype Checkpoint<M, C> = Checkpoint(
    plain: map<Field, Json>, messages: seq<M>, calls: seq<C>, seen: seq<string>,
    focus: map<string, Json>, legacyFocus: bool, batch: Option<Batch<C>>,
    outcomes: seq<string>, legacyOutcomes: bool,
    enabledSkills: seq<string>, evidenceRelation: map<string, Json>, explorationOutcome: map<string, Json>,
    schemaVersion: int)

  predicate PlainTyped(plain: map<Field, Json>)
  {
    forall f: Field :: f in plain && OfKind(KindOf(f), plain[f])
  }

  function PlainContent(plain: map<Field, Json>): (content: Payload)
  {
    map f: Field | f in plain :: Plain(f) := plain[f]
  }

  predicate WellTyped<M, C>(c: Checkpoint<M, C>, callId: C -> string)
  {
    PlainTyped(c.plain) && (c.batch.Some? ==> ValidBatch(c.batch.value, callId))
  }

  function BatchJson<M, C>(w: World<M, C>, batch: Option<Batch<C>>): (j: Json)
  {
    if batch.Some? then Obj(WriteBatch(w, batch.value)) else Null
  }

  /** The hashed part of the encoding. It never holds the enabled skills nor the two
      evidence states, and the two deprecated fields only with their flags. */
  function Content<M, C>(w: World<M, C>, c: Checkpoint<M, C>): (content: Payload)
  {
    ContentOf(PlainContent(c.plain), List(WriteAll(c.messages, w.writeMessage)), List(WriteAll(c.calls, w.writeCall)),
              List(Strings(c.seen)), BatchJson(w, c.batch),
              if c.legacyFocus then Some(Obj(c.focus)) else None,
              if c.legacyOutcomes then Some(List(Strings(c.outcomes))) else None)
  }

  function ContentOf(plain: Payload, messages: Json, calls: Json, seen: Json, batch: Json,
                     focus: Option<Json>, outcomes: Option<Json>): (content: Payload)
  {
    var always := plain[SchemaVersion := Num(2)][Messages := messages][PendingToolCalls := calls]
                       [SeenCallIds := seen][ToolBatch := batch];
    var focused := if focus.Some? then always[ExecutionFocus := focus.value] else always;
    if outcomes.Some? then focused[ActiveOutcomeIds := outcomes.value] else focused
  }

  function Encode<M, C>(w: World<M, C>, c: Checkpoint<M, C>): (data: Payload)
  {
    Content(w, c)[CheckpointHash := Str(w.hash(Content(w, c)))]
  }

  datatype DecodeError = Malformed | NegativeRenewals | IntegrityMismatch

  function ReadList<T>(value: Option<Json>, read: Json -> Option<T>): (r: Option<seq<T>>)
  {
    match value
    case Some(List(items)) => ReadAll(items, read)
    case _ => None
  }

  function ReadTexts<M, C>(w: World<M, C>, value: Option<Json>): (r: Option<seq<string>>)
  {
    match value
    case Some(List(items)) => Some(Texts(w, items))
    case _ => None
  }

  /** `tuple(str(x) for x in data.get(key, []))`. */
  function ReadEach<M, C>(w: World<M, C>, value: Option<Json>): (r: Option<seq<string>>)
  {
    if value.None? then Some([])
    else
      match w.each(value.value)
      case None => None
      case Some(items) => Some(Texts(w, items))
  }

  function ReadObject(value: Option<Json>): (fields: map<string, Json>)
  {
    match value
    case Some(Obj(fields)) => fields
    case _ => map[]
  }

  function ReadOptionalBatch<M, C>(w: World<M, C>, value: Option<Json>): (r: Option<Option<Batch<C>>>)
  {
    match value
    case Some(Obj(fields)) =>
      var b := ReadBatch(w, fields);
      if b.Some? then Some(b) else None
    case _ => Some(None)
  }

  predicate PlainReads<M, C>(w: World<M, C>, data: Payload)
  {
    forall f: Field :: PlainAt(w, data, f).Some?
  }

  function ReadPlains<M, C>(w: World<M, C>, data: Payload): (plain: map<Field, Json>)
    requires PlainReads(w, data)
    ensures forall f: Field :: f in plain && plain[f] == PlainAt(w, data, f).value
  {
    map f: Field | true :: PlainAt(w, data, f).value
  }

  /** The constructor call of `from_data`; None where it raises. */
  function Parse<M, C>(w: World<M, C>, data: Payload): (r: Option<Checkpoint<M, C>>)
  {
    var messages := ReadList(ValueAt(data, Messages), w.readMessage);
    var calls := ReadList(ValueAt(data, PendingToolCalls), w.readCall);
    var seen := ReadTexts(w, ValueAt(data, SeenCallIds));
    var skills := ReadEach(w, ValueAt(data, EnabledSkills));
    var outcomes := ReadEach(w, ValueAt(data, ActiveOutcomeIds));
    var batch := ReadOptionalBatch(w, ValueAt(data, ToolBatch));
    if messages.None? || calls.None? || seen.None? || skills.None? || outcomes.None? || batch.None? then None
    else if !PlainReads(w, data) then None
    else
      Some(Checkpoint(
        ReadPlains(w, data), messages.value, calls.value, seen.value,
        ReadObject(ValueAt(data, ExecutionFocus)), ExecutionFocus in data, batch.value,
        outcomes.value, ActiveOutcomeIds in data, skills.value, map[], map[], 2))
  }

  predicate RenewalsFine<M, C>(c: Checkpoint<M, C>)
  {
    && (ModelBudgetRenewalCount in c.plain && c.plain[ModelBudgetRenewalCount].Num?
        ==> c.plain[ModelBudgetRenewalCount].n >= 0)
    && (ModelBudgetTotalGranted in c.plain && c.plain[ModelBudgetTotalGranted].Num?
        ==> c.plain[ModelBudgetTotalGranted].n >= 0)
  }

  function StoredHash<M, C>(w: World<M, C>, data: Payload): (h: Option<string>)
  {
    if CheckpointHash in data && !data[CheckpointHash].Null? then Some(w.text(data[CheckpointHash])) else None
  }

  predicate IsMissing(data: Payload, k: Key)
  {
    IsEvolved(k) && k !in data
  }

  predicate LacksSome(data: Payload)
  {
    || ExecutionFocus !in data || ActiveOutcomeIds !in data || ToolBatch !in data
    || exists f: Field :: IsMissing(data, Plain(f))
  }

  /** The content an older writer would have hashed. */
  function WithoutMissing(content: Payload, data: Payload): (r: Payload)
  {
    map k | k in content && !IsMissing(data, k) :: content[k]
  }

  predicate HashAccepted<M, C>(w: World<M, C>, data: Payload, c: Checkpoint<M, C>, stored: string)
  {
    || stored == w.hash(Content(w, c))
    || (LacksSome(data) && stored == w.hash(WithoutMissing(Content(w, c), data)))
  }

  function DecodeCurrent<M, C>(w: World<M, C>, data: Payload, version: int): (r: Result<Checkpoint<M, C>, DecodeError>)
  {
    match Parse(w, data)
    case None => Err(Malformed)
    case Some(c) =>
      var stored := StoredHash(w, data);
      if !RenewalsFine(c) then Err(NegativeRenewals)
      else if version >= 2 && stored.Some? && !HashAccepted(w, data, c, stored.value) then Err(IntegrityMismatch)
      else Ok(c)
  }

  predicate IsRetiredCall(call: Json)
  {
    call.Obj? && exists f :: f in RETIRED_CALL_FIELDS && f in call.fields
  }

  function UpgradedCall(call: Json): (r: Json)
  {
    if call.Obj? then Obj(call.fields - RETIRED_CALL_FIELDS) else call
  }

  function UpgradedCalls(calls: Json): (r: Json)
  {
    if calls.List? then List(seq(|calls.items|, i requires 0 <= i < |calls.items| => UpgradedCall(calls.items[i])))
    else calls
  }

  predicate EnvelopeObserved(data: Payload)
  {
    || EvidenceQuestionState in data || CompletionReadinessState in data
    || (PendingToolCalls in data && data[PendingToolCalls].List?
        && exists i :: 0 <= i < |data[PendingToolCalls].items| && IsRetiredCall(data[PendingToolCalls].items[i]))
  }

  function Upgraded(data: Payload): (r: Payload)
  {
    var kept := map k | k in data && !IsRetired(k) && k != CheckpointHash :: data[k];
    var called := if PendingToolCalls in kept then kept[PendingToolCalls := UpgradedCalls(kept[PendingToolCalls])] else kept;
    called[SchemaVersion := Num(2)]
          [Plain(FinalizationState) := Obj(map["legacy_evidence_envelope_observed" := Bool(EnvelopeObserved(data))])]
  }

  function LoadV1<M, C>(w: World<M, C>, data: Payload): (r: Result<Checkpoint<M, C>, DecodeError>)
  {
    var stored := StoredHash(w, data);
    if stored.Some? && stored.value != w.hash(data - {CheckpointHash}) then Err(IntegrityMismatch)
    else DecodeCurrent(w, Upgraded(data), 2)
  }

  predicate HasLists(data: Payload)
  {
    && Messages in data && data[Messages].List?
    && PendingToolCalls in data && data[PendingToolCalls].List?
    && SeenCallIds in data && data[SeenCallIds].List?
  }

  function VersionOf<M, C>(w: World<M, C>, data: Payload): (v: Option<int>)
  {
    IntAt(w, ValueAt(data, SchemaVersion), 1)
  }

  function Decode<M, C>(w: World<M, C>, data: Payload): (r: Result<Checkpoint<M, C>, DecodeError>)
  {
    if !HasLists(data) || VersionOf(w, data).None? then Err(Malformed)
    else if VersionOf(w, data).value == 1 then LoadV1(w, data)
    else DecodeCurrent(w, data, VersionOf(w, data).value)
  }

  // ---- round trips ---------------------------------------------------------

  /** What an encoding keeps of a checkpoint. */
  function Normal<M, C>(c: Checkpoint<M, C>): (r: Checkpoint<M, C>)
  {
    c.(focus := if c.legacyFocus then c.focus else map[],
       outcomes := if c.legacyOutcomes then c.outcomes else [],
       batch := if c.batch.Some? then Some(NormalBatch(c.batch.value)) else None,
       enabledSkills := [], evidenceRelation := map[], explorationOutcome := map[], schemaVersion := 2)
  }

  /** The checkpoints that come back exactly. */
  predicate Canonical<M, C>(c: Checkpoint<M, C>)
  {
    && c.enabledSkills == [] && c.evidenceRelation == map[] && c.explorationOutcome == map[] && c.schemaVersion == 2
    && (!c.legacyFocus ==> c.focus == map[]) && (!c.legacyOutcomes ==> c.outcomes == [])
    && (c.batch.Some? && !c.batch.value.legacyFocus ==> c.batch.value.focusRevision == 0)
  }

  /** What the encoding holds under each name. */
  function EncodedAt<M, C>(w: World<M, C>, c: Checkpoint<M, C>, k: Key): (value: Option<Json>)
  {
    match k
    case Plain(f) => if f in c.plain then Some(c.plain[f]) else None
    case SchemaVersion => Some(Num(2))
    case Messages => Some(List(WriteAll(c.messages, w.writeMessage)))
    case PendingToolCalls => Some(List(WriteAll(c.calls, w.writeCall)))
    case SeenCallIds => Some(List(Strings(c.seen)))
    case ToolBatch => Some(BatchJson(w, c.batch))
    case ExecutionFocus => if c.legacyFocus then Some(Obj(c.focus)) else None
    case ActiveOutcomeIds => if c.legacyOutcomes then Some(List(Strings(c.outcomes))) else None
    case _ => None
  }

  lemma ContentAt<M, C>(w: World<M, C>, c: Checkpoint<M, C>, k: Key)
    ensures ValueAt(Content(w, c), k) == EncodedAt(w, c, k)
  {
  }

  function DefaultOf(f: Field): (value: Json)
  {
    match KindOf(f)
    case Object => Obj(map[])
    case Int(default) => Num(default)
    case Text => Str("")
    case _ => Null
  }

  /** What a missing evolved field is read as. */
  predicate AtDefault<M, C>(c: Checkpoint<M, C>, k: Key)
  {
    match k
    case Plain(f) => f in c.plain && c.plain[f] == DefaultOf(f)
    case ExecutionFocus => !c.legacyFocus
    case ActiveOutcomeIds => !c.legacyOutcomes
    case ToolBatch => c.batch.None?
    case _ => false
  }

  /** `data` is the content of `c`, but for some evolved fields that are at their defaults
      and whatever hash it carries. */
  ghost predicate Agree<M, C>(w: World<M, C>, data: Payload, c: Checkpoint<M, C>, absent: set<Key>)
  {
    && (forall k :: k in absent ==> IsEvolved(k) && AtDefault(c, k))
    && (forall k :: k != CheckpointHash ==> ValueAt(data, k) == if k in absent then None else EncodedAt(w, c, k))
  }

  lemma EncodeAgrees<M, C>(w: World<M, C>, c: Checkpoint<M, C>)
    ensures Agree(w, Encode(w, c), c, {})
  {
    forall k | k != CheckpointHash
      ensures ValueAt(Encode(w, c), k) == EncodedAt(w, c, k)
    {
      ContentAt(w, c, k);
    }
  }

  lemma DefaultsRead<M, C>(w: World<M, C>, f: Field)
    requires IsEvolvedField(f)
    ensures ReadPlain(w, KindOf(f), None) == Some(DefaultOf(f))
  {
  }

  lemma PlainsReadBack<M(!new), C(!new)>(w: World<M, C>, c: Checkpoint<M, C>, data: Payload, absent: set<Key>)
    requires Faithful(w) && PlainTyped(c.plain) && Agree(w, data, c, absent)
    ensures PlainReads(w, data) && ReadPlains(w, data) == c.plain
  {
    forall f: Field
      ensures PlainAt(w, data, f) == Some(c.plain[f])
    {
      if Plain(f) in absent {
        DefaultsRead(w, f);
        assert ValueAt(data, Plain(f)) == None && AtDefault(c, Plain(f));
      } else {
        assert ValueAt(data, Plain(f)) == Some(c.plain[f]);
        PlainReadsBack(w, KindOf(f), c.plain[f]);
      }
    }
  }

  lemma ListsReadBack<M(!new), C(!new)>(w: World<M, C>, c: Checkpoint<M, C>, data: Payload, absent: set<Key>)
    requires Faithful(w) && PlainTyped(c.plain) && Agree(w, data, c, absent)
    ensures ReadList(ValueAt(data, Messages), w.readMessage) == Some(c.messages)
    ensures ReadList(ValueAt(data, PendingToolCalls), w.readCall) == Some(c.calls)
    ensures ReadTexts(w, ValueAt(data, SeenCallIds)) == Some(c.seen)
    ensures HasLists(data)
  {
    ReadsBack(c.messages, w.writeMessage, w.readMessage);
    ReadsBack(c.calls, w.writeCall, w.readCall);
    TextsReadBack(w, c.seen);
  }

  lemma FocusReadsBack<M, C>(w: World<M, C>, c: Checkpoint<M, C>, data: Payload, absent: set<Key>)
    requires PlainTyped(c.plain) && Agree(w, data, c, absent)
    ensures ReadObject(ValueAt(data, ExecutionFocus)) == Normal(c).focus && (ExecutionFocus in data <==> c.legacyFocus)
  {
    assert ValueAt(data, ExecutionFocus) == if c.legacyFocus then Some(Obj(c.focus)) else None;
  }

  lemma OutcomesReadBack<M(!new), C(!new)>(w: World<M, C>, c: Checkpoint<M, C>, data: Payload, absent: set<Key>)
    requires Faithful(w) && PlainTyped(c.plain) && Agree(w, data, c, absent)
    ensures ReadEach(w, ValueAt(data, ActiveOutcomeIds)) == Some(Normal(c).outcomes)
    ensures ActiveOutcomeIds in data <==> c.legacyOutcomes
    ensures ReadEach(w, ValueAt(data, EnabledSkills)) == Some([])
  {
    assert ValueAt(data, ActiveOutcomeIds) == if c.legacyOutcomes then Some(List(Strings(c.outcomes))) else None;
    TextsReadBack(w, c.outcomes);
  }

  lemma BatchFieldReadsBack<M(!new), C(!new)>(w: World<M, C>, c: Checkpoint<M, C>, data: Payload, absent: set<Key>)
    requires Faithful(w) && WellTyped(c, w.callId) && Agree(w, data, c, absent)
    ensures ReadOptionalBatch(w, ValueAt(data, ToolBatch)) == Some(Normal(c).batch)
  {
    if ToolBatch in absent {
      assert AtDefault(c, ToolBatch);
    } else {
      assert ValueAt(data, ToolBatch) == Some(BatchJson(w, c.batch));
      OptionalBatchReadsBack(w, c.batch);
    }
  }

  lemma OptionalBatchReadsBack<M(!new), C(!new)>(w: World<M, C>, batch: Option<Batch<C>>)
    requires Faithful(w) && (batch.Some? ==> ValidBatch(batch.value, w.callId))
    ensures ReadOptionalBatch(w, Some(BatchJson(w, batch)))
            == Some(if batch.Some? then Some(NormalBatch(batch.value)) else None)
  {
    if batch.Some? {
      BatchReadsBack(w, batch.value);
    }
  }

  /** Parsing is reading its fields. */
  lemma ParsedFields<M, C>(w: World<M, C>, data: Payload, c: Checkpoint<M, C>)
    requires PlainReads(w, data) && ReadPlains(w, data) == c.plain
    requires ReadList(ValueAt(data, Messages), w.readMessage) == Some(c.messages)
    requires ReadList(ValueAt(data, PendingToolCalls), w.readCall) == Some(c.calls)
    requires ReadTexts(w, ValueAt(data, SeenCallIds)) == Some(c.seen)
    requires ReadObject(ValueAt(data, ExecutionFocus)) == c.focus && (ExecutionFocus in data <==> c.legacyFocus)
    requires ReadEach(w, ValueAt(data, ActiveOutcomeIds)) == Some(c.outcomes)
    requires ActiveOutcomeIds in data <==> c.legacyOutcomes
    requires ReadEach(w, ValueAt(data, EnabledSkills)) == Some(c.enabledSkills)
    requires ReadOptionalBatch(w, ValueAt(data, ToolBatch)) == Some(c.batch)
    requires c.evidenceRelation == map[] && c.explorationOutcome == map[] && c.schemaVersion == 2
    ensures Parse(w, data) == Some(c)
  {
  }

  lemma VersionReadsBack<M(!new), C(!new)>(w: World<M, C>, c: Checkpoint<M, C>, data: Payload, absent: set<Key>)
    requires Faithful(w) && Agree(w, data, c, absent)
    ensures VersionOf(w, data) == Some(2)
  {
    assert ValueAt(data, SchemaVersion) == Some(Num(2));
  }

  lemma ParseReadsBack<M(!new), C(!new)>(w: World<M, C>, c: Checkpoint<M, C>, data: Payload, absent: set<Key>)
    requires Faithful(w) && WellTyped(c, w.callId) && Agree(w, data, c, absent)
    ensures Parse(w, data) == Some(Normal(c)) && HasLists(data) && VersionOf(w, data) == Some(2)
  {
    PlainsReadBack(w, c, data, absent);
    ListsReadBack(w, c, data, absent);
    FocusReadsBack(w, c, data, absent);
    OutcomesReadBack(w, c, data, absent);
    BatchFieldReadsBack(w, c, data, absent);
    VersionReadsBack(w, c, data, absent);
    ParsedFields(w, data, Normal(c));
  }

  lemma NormalBatchWrites<M, C>(w: World<M, C>, b: Batch<C>)
    ensures WriteBatch(w, NormalBatch(b)) == WriteBatch(w, b)
  {
  }

  lemma NormalKeepsContent<M, C>(w: World<M, C>, c: Checkpoint<M, C>)
    ensures Content(w, Normal(c)) == Content(w, c) && Encode(w, Normal(c)) == Encode(w, c)
  {
    if c.batch.Some? {
      NormalBatchWrites(w, c.batch.value);
    }
    var n := Normal(c);
    assert n.plain == c.plain && BatchJson(w, n.batch) == BatchJson(w, c.batch);
  }

  /** Decoding an encoded checkpoint: it is accepted if and only if its renewal counters
      are not negative, and then yields the canonical form, whose encoding is the same. */
  lemma DecodeInvertsEncode<M(!new), C(!new)>(w: World<M, C>, c: Checkpoint<M, C>)
    requires Faithful(w) && WellTyped(c, w.callId)
    ensures Decode(w, Encode(w, c)) == if RenewalsFine(c) then Ok(Normal(c)) else Err(NegativeRenewals)
    ensures Encode(w, Normal(c)) == Encode(w, c)
  {
    EncodeAgrees(w, c);
    ParseReadsBack(w, c, Encode(w, c), {});
    NormalKeepsContent(w, c);
    HashReadsBack(w, c);
    OwnHashDecides(w, Encode(w, c), Normal(c), w.hash(Content(w, c)));
    assert RenewalsFine(Normal(c)) == RenewalsFine(c);
  }

  /** A payload with the hash of what it holds is refused for its counters only. */
  lemma OwnHashDecides<M, C>(w: World<M, C>, data: Payload, c: Checkpoint<M, C>, stored: string)
    requires HasLists(data) && VersionOf(w, data) == Some(2) && Parse(w, data) == Some(c)
    requires StoredHash(w, data) == Some(stored) && stored == w.hash(Content(w, c))
    ensures Decode(w, data) == if RenewalsFine(c) then Ok(c) else Err(NegativeRenewals)
  {
  }

  lemma HashReadsBack<M(!new), C(!new)>(w: World<M, C>, c: Checkpoint<M, C>)
    requires Faithful(w)
    ensures StoredHash(w, Encode(w, c)) == Some(w.hash(Content(w, c)))
  {
  }

  /** The checkpoints that survive a save unchanged are exactly the canonical ones with
      counters that are not negative. Enabled skills do not survive. */
  lemma SurvivesUnchanged<M(!new), C(!new)>(w: World<M, C>, c: Checkpoint<M, C>)
    requires Faithful(w) && WellTyped(c, w.callId)
    ensures Decode(w, Encode(w, c)) == Ok(c) <==> Canonical(c) && RenewalsFine(c)
  {
    DecodeInvertsEncode(w, c);
    if c.batch.Some? && !c.batch.value.legacyFocus {
      assert NormalBatch(c.batch.value).focusRevision == 0;
    }
  }

  // ---- what a save loses ---------------------------------------------------

  function SampleOf(f: Field): (value: Json)
  {
    match KindOf(f)
    case RequiredText => Str("x")
    case RequiredInt => Num(0)
    case RequiredFloat => Float(0)
    case _ => DefaultOf(f)
  }

  /** A small checkpoint with enabled skills. */
  function Sample<M, C>(skills: seq<string>): (c: Checkpoint<M, C>)
  {
    Checkpoint(map f: Field | true :: SampleOf(f), [], [], [], map[], false, None, [], false, skills, map[], map[], 2)
  }

  lemma SampleIsTyped<M, C>(w: World<M, C>, skills: seq<string>)
    ensures WellTyped<M, C>(Sample(skills), w.callId) && RenewalsFine<M, C>(Sample(skills))
  {
  }

  /** One enabled skill, and it is gone after a save. */
  lemma SkillsAreLost<M(!new), C(!new)>(w: World<M, C>)
    requires Faithful(w)
    ensures Decode(w, Encode(w, Sample(["skill"]))) == Ok(Sample<M, C>([]))
    ensures Sample<M, C>(["skill"]) != Sample<M, C>([])
  {
    SampleIsTyped<M, C>(w, ["skill"]);
    DecodeInvertsEncode<M, C>(w, Sample(["skill"]));
    assert Sample<M, C>(["skill"]).enabledSkills != Sample<M, C>([]).enabledSkills;
  }

  /** A negative counter is written, and refused when it is read. */
  lemma NegativeCounterIsRefused<M(!new), C(!new)>(w: World<M, C>)
    requires Faithful(w)
    ensures var c: Checkpoint<M, C> := Sample([]);
            Decode(w, Encode(w, c.(plain := c.plain[ModelBudgetRenewalCount := Num(-1)]))) == Err(NegativeRenewals)
  {
    var c: Checkpoint<M, C> := Sample([]);
    SampleIsTyped<M, C>(w, []);
    DecodeInvertsEncode(w, c.(plain := c.plain[ModelBudgetRenewalCount := Num(-1)]));
  }

  // ---- every accepted payload ----------------------------------------------

  lemma ParsedIsTyped<M, C>(w: World<M, C>, data: Payload)
    requires Parse(w, data).Some?
    ensures WellTyped(Parse(w, data).value, w.callId)
    ensures Normal(Parse(w, data).value) == Parse(w, data).value.(enabledSkills := [])
  {
    forall f: Field
      ensures f in ReadPlains(w, data) && OfKind(KindOf(f), ReadPlains(w, data)[f])
    {
      assert PlainAt(w, data, f).Some?;
    }
  }

  lemma AcceptedIsTyped<M, C>(w: World<M, C>, data: Payload)
    requires Decode(w, data).Ok?
    ensures var c := Decode(w, data).value;
            WellTyped(c, w.callId) && RenewalsFine(c) && Normal(c) == c.(enabledSkills := [])
  {
    if VersionOf(w, data).value == 1 {
      ParsedIsTyped(w, Upgraded(data));
    } else {
      ParsedIsTyped(w, data);
    }
  }

  /** Whatever was accepted, of any version: saving it and loading it again gives it back
      without its enabled skills, and from then on nothing changes. A migrated version 1
      payload is a fixed point of saving if and only if it names no skills. */
  lemma ReloadingSettles<M(!new), C(!new)>(w: World<M, C>, data: Payload)
    requires Faithful(w) && Decode(w, data).Ok?
    ensures var c := Decode(w, data).value;
            && Decode(w, Encode(w, c)) == Ok(c.(enabledSkills := []))
            && Encode(w, c.(enabledSkills := [])) == Encode(w, c)
            && (Decode(w, Encode(w, c)) == Ok(c) <==> c.enabledSkills == [])
  {
    AcceptedIsTyped(w, data);
    DecodeInvertsEncode(w, Decode(w, data).value);
  }

  /** What a payload is read as that lacks the field; None for a field that must be there. */
  function MissingValue(f: Field): (value: Option<Json>)
  {
    match f
    case LastSteeringInboundSequence | TaskSpecRevision | ModelBudgetRenewalCount | ModelBudgetTotalGranted => Some(Num(0))
    case GoalRevision => Some(Num(1))
    case ReasoningEffort | ModelProfileId => Some(Null)
    case WorkspaceFingerprint | EffectiveConfigHash | ToolsetHash | PromptManifestHash | SessionId => Some(Str(""))
    case SessionContextHash | WorkingMemoryHash | TaskSpecHash => Some(Str(""))
    case FinalizationState | ActionProgress | EvidenceInventory | ReadHitsState | ArtifactReadState => Some(Obj(map[]))
    case ProgressiveScopeState | ExplorationBudgetState | StopOrPivotState | RejectionLoopState => Some(Obj(map[]))
    case PendingUserAction => Some(Obj(map[]))
    case _ => None
  }

  lemma MissingIsRead<M, C>(w: World<M, C>, f: Field)
    ensures ReadPlain(w, KindOf(f), None) == MissingValue(f)
  {
  }

  lemma MissingParses<M, C>(w: World<M, C>, data: Payload, f: Field)
    requires Parse(w, data).Some? && ValueAt(data, Plain(f)) == None
    ensures f in Parse(w, data).value.plain && MissingValue(f) == Some(Parse(w, data).value.plain[f])
  {
    MissingIsRead(w, f);
    assert PlainAt(w, data, f) == ReadPlain(w, KindOf(f), None);
  }

  lemma UpgradedLacks(data: Payload, f: Field)
    requires Plain(f) !in data && f != FinalizationState
    ensures ValueAt(Upgraded(data), Plain(f)) == None
  {
  }

  /** An accepted payload lacks no field that must be there, and a field it lacks has its
      default; only the finalization state of version 1 is made anew. */
  lemma MissingFieldsAreRead<M, C>(w: World<M, C>, data: Payload, f: Field)
    requires Decode(w, data).Ok? && Plain(f) !in data
    requires f == FinalizationState ==> VersionOf(w, data) != Some(1)
    ensures f in Decode(w, data).value.plain && MissingValue(f) == Some(Decode(w, data).value.plain[f])
  {
    if VersionOf(w, data) == Some(1) {
      UpgradedLacks(data, f);
      MissingParses(w, Upgraded(data), f);
    } else {
      MissingParses(w, data, f);
    }
  }

  // ---- integrity -----------------------------------------------------------

  /** A version 2 payload with the hash of `original` is accepted if and only if what it
      decodes to has that very content, in full or without exactly the evolved fields
      that the payload lacks. */
  lemma HashDecides<M, C>(w: World<M, C>, data: Payload, original: Payload)
    requires InjectiveHash(w) && HasLists(data) && VersionOf(w, data).Some? && VersionOf(w, data).value >= 2
    requires StoredHash(w, data) == Some(w.hash(original))
    ensures Decode(w, data).Ok?
            <==> Parse(w, data).Some? && RenewalsFine(Parse(w, data).value)
                 && var content := Content(w, Parse(w, data).value);
                    original == content || (LacksSome(data) && original == WithoutMissing(content, data))
  {
  }

  /** A version 1 payload is measured as it stands, before anything is dropped from it. */
  lemma V1HashDecides<M, C>(w: World<M, C>, data: Payload, original: Payload)
    requires InjectiveHash(w) && HasLists(data) && VersionOf(w, data) == Some(1)
    requires StoredHash(w, data) == Some(w.hash(original))
    ensures Decode(w, data).Ok? ==> original == data - {CheckpointHash}
    ensures original == data - {CheckpointHash} ==> Decode(w, data) == DecodeCurrent(w, Upgraded(data), 2)
    ensures StoredHash(w, Upgraded(data)).None?
  {
  }

  /** The hash of a payload that claims a version below 1 is not looked at. */
  lemma OlderVersionsAreNotMeasured<M, C>(w: World<M, C>, data: Payload)
    requires VersionOf(w, data).Some? && VersionOf(w, data).value < 1
    ensures Decode(w, data) == Decode(w, data - {CheckpointHash})
  {
    SameButHash(w, data);
  }

  function Marked(data: Payload, version: int, h: string): (r: Payload)
  {
    data[SchemaVersion := Num(version)][CheckpointHash := Str(h)]
  }

  lemma MarksReadBack<M(!new), C(!new)>(w: World<M, C>, data: Payload, version: int, h: string)
    requires Faithful(w)
    ensures VersionOf(w, Marked(data, version, h)) == Some(version)
    ensures StoredHash(w, Marked(data, version, h)) == Some(h)
    ensures HasLists(Marked(data, version, h)) == HasLists(data)
    ensures Parse(w, Marked(data, version, h)) == Parse(w, data)
  {
    var r := Marked(data, version, h);
    assert ValueAt(r, SchemaVersion) == Some(Num(version));
    forall k | k != CheckpointHash && k != SchemaVersion
      ensures ValueAt(r, k) == ValueAt(data, k)
    {
    }
    SameParse(w, r, data);
  }

  lemma OldDecision<M, C>(w: World<M, C>, data: Payload, c: Checkpoint<M, C>)
    requires HasLists(data) && VersionOf(w, data) == Some(0) && Parse(w, data) == Some(c) && RenewalsFine(c)
    ensures Decode(w, data) == Ok(c)
  {
  }

  /** Any checkpoint under version 0 is accepted with any hash, ... */
  lemma AnyHashPasses<M(!new), C(!new)>(w: World<M, C>, c: Checkpoint<M, C>, h: string)
    requires Faithful(w) && WellTyped(c, w.callId) && RenewalsFine(c)
    ensures Decode(w, Marked(Encode(w, c), 0, h)) == Ok(Normal(c))
  {
    var data := Encode(w, c);
    EncodeAgrees(w, c);
    ParseReadsBack(w, c, data, {});
    MarksReadBack(w, data, 0, h);
    OldDecision(w, Marked(data, 0, h), Normal(c));
  }

  /** ... for example with a wrong one. */
  lemma WrongHashPasses<M(!new), C(!new)>(w: World<M, C>)
    requires Faithful(w)
    ensures var c: Checkpoint<M, C> := Sample([]);
            var data := Marked(Encode(w, c), 0, w.hash(Content(w, c)) + "x");
            && VersionOf(w, data) == Some(0) && Decode(w, data) == Ok(c)
            && StoredHash(w, data).Some? && StoredHash(w, data) != Some(w.hash(Content(w, c)))
  {
    var c: Checkpoint<M, C> := Sample([]);
    var h := w.hash(Content(w, c));
    SampleIsTyped<M, C>(w, []);
    AnyHashPasses(w, c, h + "x");
    MarksReadBack(w, Encode(w, c), 0, h + "x");
    assert |h + "x"| != |h|;
  }

  lemma SameButHash<M, C>(w: World<M, C>, data: Payload)
    ensures Parse(w, data - {CheckpointHash}) == Parse(w, data)
    ensures VersionOf(w, data - {CheckpointHash}) == VersionOf(w, data)
    ensures HasLists(data - {CheckpointHash}) == HasLists(data)
  {
    HashlessParses(w, data);
    HashlessAt(data, SchemaVersion);
    HashlessAt(data, Messages);
    HashlessAt(data, PendingToolCalls);
    HashlessAt(data, SeenCallIds);
  }

  lemma HashlessAt(data: Payload, k: Key)
    requires k != CheckpointHash
    ensures ValueAt(data - {CheckpointHash}, k) == ValueAt(data, k)
  {
  }

  lemma HashlessParses<M, C>(w: World<M, C>, data: Payload)
    ensures Parse(w, data - {CheckpointHash}) == Parse(w, data)
  {
    forall k | k != CheckpointHash && k != SchemaVersion
      ensures ValueAt(data, k) == ValueAt(data - {CheckpointHash}, k)
    {
      HashlessAt(data, k);
    }
    SameParse(w, data, data - {CheckpointHash});
  }

  lemma SameParse<M, C>(w: World<M, C>, a: Payload, b: Payload)
    requires forall k :: k != CheckpointHash && k != SchemaVersion ==> ValueAt(a, k) == ValueAt(b, k)
    ensures Parse(w, a) == Parse(w, b)
  {
    assert ValueAt(a, ExecutionFocus) == ValueAt(b, ExecutionFocus);
    assert ValueAt(a, ActiveOutcomeIds) == ValueAt(b, ActiveOutcomeIds);
    SamePlains(w, a, b);
  }

  lemma SamePlains<M, C>(w: World<M, C>, a: Payload, b: Payload)
    requires forall f: Field :: ValueAt(a, Plain(f)) == ValueAt(b, Plain(f))
    ensures PlainReads(w, a) == PlainReads(w, b)
    ensures PlainReads(w, a) ==> ReadPlains(w, a) == ReadPlains(w, b)
  {
    forall f: Field
      ensures PlainAt(w, a, f) == PlainAt(w, b, f)
    {
      assert ValueAt(a, Plain(f)) == ValueAt(b, Plain(f));
    }
  }

  // ---- older and tampered payloads -----------------------------------------

  /** The payload of a writer that did not know the fields in `absent`. */
  function OldPayload<M, C>(w: World<M, C>, c: Checkpoint<M, C>, absent: set<Key>): (data: Payload)
  {
    var known := Content(w, c) - absent;
    known[CheckpointHash := Str(w.hash(known))]
  }

  lemma CurrentDecision<M, C>(w: World<M, C>, data: Payload, p: Checkpoint<M, C>, stored: string)
    requires HasLists(data) && VersionOf(w, data) == Some(2) && Parse(w, data) == Some(p) && RenewalsFine(p)
    requires StoredHash(w, data) == Some(stored)
    ensures Decode(w, data) == if HashAccepted(w, data, p, stored) then Ok(p) else Err(IntegrityMismatch)
  {
  }

  /** Payloads of older version 2 writers are accepted, whichever of the evolved fields
      they did not know, and the fields they lack get their defaults. */
  lemma OlderWritersAreRead<M(!new), C(!new)>(w: World<M, C>, c: Checkpoint<M, C>, absent: set<Key>)
    requires Faithful(w) && WellTyped(c, w.callId) && RenewalsFine(c)
    requires forall k :: k in absent ==> IsEvolved(k) && AtDefault(c, k)
    ensures Decode(w, OldPayload(w, c, absent)) == Ok(Normal(c))
  {
    var data := OldPayload(w, c, absent);
    OldPayloadAgrees(w, c, absent);
    ParseReadsBack(w, c, data, absent);
    NormalKeepsContent(w, c);
    OldHashAccepted(w, c, absent);
    CurrentDecision(w, data, Normal(c), w.hash(Content(w, c) - absent));
  }

  lemma OldPayloadAgrees<M, C>(w: World<M, C>, c: Checkpoint<M, C>, absent: set<Key>)
    requires forall k :: k in absent ==> IsEvolved(k) && AtDefault(c, k)
    ensures Agree(w, OldPayload(w, c, absent), c, absent)
  {
    forall k | k != CheckpointHash
      ensures ValueAt(OldPayload(w, c, absent), k) == if k in absent then None else EncodedAt(w, c, k)
    {
      ContentAt(w, c, k);
    }
  }

  lemma OldHashAccepted<M(!new), C(!new)>(w: World<M, C>, c: Checkpoint<M, C>, absent: set<Key>)
    requires Faithful(w) && PlainTyped(c.plain) && forall k :: k in absent ==> IsEvolved(k)
    ensures var data, stored := OldPayload(w, c, absent), w.hash(Content(w, c) - absent);
            StoredHash(w, data) == Some(stored) && HashAccepted(w, data, c, stored)
  {
    OldContent(Content(w, c), absent, w.hash(Content(w, c) - absent));
  }

  lemma OldContent(content: Payload, absent: set<Key>, stored: string)
    requires CheckpointHash !in content && forall k :: k in absent ==> IsEvolved(k)
    ensures var data := (content - absent)[CheckpointHash := Str(stored)];
            WithoutMissing(content, data) == content - absent && (content - absent == content || LacksSome(data))
  {
    var data := (content - absent)[CheckpointHash := Str(stored)];
    if content - absent != content {
      var k :| k in content && k in absent;
      assert IsEvolved(k) && k !in data;
      if k.Plain? {
        assert IsMissing(data, Plain(k.field));
      }
    }
  }

  /** `c` with the fields in `dropped` at their defaults. */
  function WithDefaults<M, C>(c: Checkpoint<M, C>, dropped: set<Key>): (r: Checkpoint<M, C>)
    requires PlainTyped(c.plain)
    ensures forall f: Field :: f in r.plain && r.plain[f] == if Plain(f) in dropped then DefaultOf(f) else c.plain[f]
  {
    c.(plain := map f: Field | true :: if Plain(f) in dropped then DefaultOf(f) else c.plain[f],
       legacyFocus := c.legacyFocus && ExecutionFocus !in dropped,
       legacyOutcomes := c.legacyOutcomes && ActiveOutcomeIds !in dropped,
       batch := if ToolBatch in dropped then None else c.batch)
  }

  ghost predicate AllEvolved(dropped: set<Key>)
  {
    forall k :: k in dropped ==> IsEvolved(k)
  }

  /** Evolved fields may be missing, but they cannot be removed: a current payload that
      loses some of them is accepted if and only if each lost field was at its default. */
  lemma RemovalIsDetected<M(!new), C(!new)>(w: World<M, C>, c: Checkpoint<M, C>, dropped: set<Key>)
    requires Faithful(w) && InjectiveHash(w) && WellTyped(c, w.callId) && RenewalsFine(c)
    requires AllEvolved(dropped)
    ensures Decode(w, Encode(w, c) - dropped).Ok? <==> forall k :: k in dropped ==> AtDefault(c, k)
  {
    var data, d := Encode(w, c) - dropped, WithDefaults(c, dropped);
    RemovedReads(w, c, dropped);
    DefaultsKeepTypes(c, dropped);
    RemovedHash(w, c, dropped);
    NormalKeepsContent(w, d);
    RemovedContent(w, c, dropped);
    RemovedMissing(w, c, dropped);
    CurrentDecision(w, data, Normal(d), w.hash(Content(w, c)));
  }

  lemma RemovedHash<M(!new), C(!new)>(w: World<M, C>, c: Checkpoint<M, C>, dropped: set<Key>)
    requires Faithful(w) && AllEvolved(dropped)
    ensures StoredHash(w, Encode(w, c) - dropped) == Some(w.hash(Content(w, c)))
  {
    HashReadsBack(w, c);
    assert CheckpointHash !in dropped;
  }

  lemma RemovedAt<M, C>(w: World<M, C>, c: Checkpoint<M, C>, dropped: set<Key>, k: Key)
    requires PlainTyped(c.plain) && AllEvolved(dropped) && k !in dropped
    ensures EncodedAt(w, WithDefaults(c, dropped), k) == EncodedAt(w, c, k)
  {
  }

  lemma DefaultsAreDefault<M, C>(c: Checkpoint<M, C>, dropped: set<Key>)
    requires PlainTyped(c.plain) && AllEvolved(dropped)
    ensures forall k :: k in dropped ==> AtDefault(WithDefaults(c, dropped), k)
  {
  }

  lemma RemovedAgrees<M, C>(w: World<M, C>, c: Checkpoint<M, C>, dropped: set<Key>)
    requires PlainTyped(c.plain) && AllEvolved(dropped)
    ensures Agree(w, Encode(w, c) - dropped, WithDefaults(c, dropped), dropped)
  {
    var data, d := Encode(w, c) - dropped, WithDefaults(c, dropped);
    DefaultsAreDefault(c, dropped);
    forall k | k != CheckpointHash
      ensures ValueAt(data, k) == if k in dropped then None else EncodedAt(w, d, k)
    {
      if k !in dropped {
        ContentAt(w, c, k);
        RemovedAt(w, c, dropped, k);
      }
    }
  }

  lemma DefaultsTyped(f: Field)
    requires IsEvolvedField(f)
    ensures OfKind(KindOf(f), DefaultOf(f))
    ensures f == ModelBudgetRenewalCount || f == ModelBudgetTotalGranted ==> DefaultOf(f) == Num(0)
  {
  }

  lemma RemovedReads<M(!new), C(!new)>(w: World<M, C>, c: Checkpoint<M, C>, dropped: set<Key>)
    requires Faithful(w) && WellTyped(c, w.callId) && RenewalsFine(c) && AllEvolved(dropped)
    ensures var data, d := Encode(w, c) - dropped, WithDefaults(c, dropped);
            && Parse(w, data) == Some(Normal(d)) && HasLists(data) && VersionOf(w, data) == Some(2)
  {
    DefaultsKeepTypes(c, dropped);
    RemovedAgrees(w, c, dropped);
    ParseReadsBack(w, WithDefaults(c, dropped), Encode(w, c) - dropped, dropped);
  }

  lemma DefaultsKeepTypes<M, C>(c: Checkpoint<M, C>, dropped: set<Key>)
    requires PlainTyped(c.plain) && RenewalsFine(c) && AllEvolved(dropped)
    ensures PlainTyped(WithDefaults(c, dropped).plain) && RenewalsFine(Normal(WithDefaults(c, dropped)))
  {
    forall f: Field | Plain(f) in dropped
      ensures OfKind(KindOf(f), DefaultOf(f))
    {
      DefaultsTyped(f);
    }
    DefaultsTyped(ModelBudgetRenewalCount);
    DefaultsTyped(ModelBudgetTotalGranted);
  }

  /** The content with defaults is the original one only if nothing else was lost. */
  lemma RemovedContent<M, C>(w: World<M, C>, c: Checkpoint<M, C>, dropped: set<Key>)
    requires PlainTyped(c.plain) && AllEvolved(dropped)
    ensures Content(w, WithDefaults(c, dropped)) == Content(w, c) <==> forall k :: k in dropped ==> AtDefault(c, k)
  {
    var d := WithDefaults(c, dropped);
    if forall k :: k in dropped ==> AtDefault(c, k) {
      AlreadyDefault(w, c, dropped);
    }
    forall k | k in dropped && Content(w, d) == Content(w, c)
      ensures AtDefault(c, k)
    {
      ContentAt(w, c, k);
      ContentAt(w, d, k);
      SameValueIsDefault(w, c, dropped, k);
    }
  }

  lemma SameValueIsDefault<M, C>(w: World<M, C>, c: Checkpoint<M, C>, dropped: set<Key>, k: Key)
    requires PlainTyped(c.plain) && AllEvolved(dropped) && k in dropped
    requires EncodedAt(w, WithDefaults(c, dropped), k) == EncodedAt(w, c, k)
    ensures AtDefault(c, k)
  {
  }

  lemma AlreadyDefault<M, C>(w: World<M, C>, c: Checkpoint<M, C>, dropped: set<Key>)
    requires PlainTyped(c.plain) && forall k :: k in dropped ==> AtDefault(c, k)
    ensures Content(w, WithDefaults(c, dropped)) == Content(w, c)
  {
    var d := WithDefaults(c, dropped);
    assert d.plain == c.plain;
    assert d.legacyFocus == c.legacyFocus && d.legacyOutcomes == c.legacyOutcomes && d.batch == c.batch;
  }

  /** Leaving out what is missing gives the original content only if that is the content
      with defaults too. */
  lemma RemovedMissing<M, C>(w: World<M, C>, c: Checkpoint<M, C>, dropped: set<Key>)
    requires PlainTyped(c.plain) && AllEvolved(dropped)
    ensures var data, d := Encode(w, c) - dropped, WithDefaults(c, dropped);
            WithoutMissing(Content(w, d), data) == Content(w, c) ==> Content(w, d) == Content(w, c)
  {
    var data, d := Encode(w, c) - dropped, WithDefaults(c, dropped);
    if WithoutMissing(Content(w, d), data) == Content(w, c) {
      forall k | k in dropped
        ensures AtDefault(c, k)
      {
        assert k !in data && k !in WithoutMissing(Content(w, d), data);
        ContentAt(w, c, k);
        AbsentIsDefault(w, c, k);
      }
      RemovedContent(w, c, dropped);
    }
  }

  lemma AbsentIsDefault<M, C>(w: World<M, C>, c: Checkpoint<M, C>, k: Key)
    requires PlainTyped(c.plain) && IsEvolved(k) && EncodedAt(w, c, k) == None
    ensures AtDefault(c, k)
  {
  }
}
