/** What a version 1 checkpoint payload is read as, in terms of the payload alone
    (core/agent_loop.py, load_checkpoint_v1). */
module V1Migration {
  import opened Common
  import opened CheckpointCodec

  // ---- the migration, said of the payload ----------------------------------

  predicate IsRetiredName(name: string)
  {
    name == "evidence_question" || name == "evidence_intent"
  }

  /** `stripped` is the call without its retired names and with everything else. */
  ghost predicate Strips(call: Json, stripped: Json)
  {
    if call.Obj? then
      && stripped.Obj?
      && (forall name :: name in stripped.fields <==> name in call.fields && !IsRetiredName(name))
      && (forall name :: name in stripped.fields ==> stripped.fields[name] == call.fields[name])
    else stripped == call
  }

  ghost predicate ReadsCall<M, C>(w: World<M, C>, item: Json, call: C)
  {
    exists stripped :: Strips(item, stripped) && w.readCall(stripped) == Some(call)
  }

  /** One call for every pending item, in order. */
  ghost predicate ReadsCalls<M, C>(w: World<M, C>, items: seq<Json>, calls: seq<C>)
  {
    |calls| == |items| && forall i :: 0 <= i < |items| ==> ReadsCall(w, items[i], calls[i])
  }

  ghost predicate ReadsMessages<M, C>(w: World<M, C>, items: seq<Json>, messages: seq<M>)
  {
    |messages| == |items| && forall i :: 0 <= i < |items| ==> w.readMessage(items[i]) == Some(messages[i])
  }

  ghost predicate ReadsSeen<M, C>(w: World<M, C>, items: seq<Json>, seen: seq<string>)
  {
    |seen| == |items| && forall i :: 0 <= i < |items| ==> seen[i] == w.text(items[i])
  }

  /** Some part of the payload belongs to the retired evidence envelope. */
  predicate HoldsEnvelope(data: Payload)
    requires HasLists(data)
  {
    || EvidenceQuestionState in data || CompletionReadinessState in data
    || exists i :: 0 <= i < |data[PendingToolCalls].items| && HoldsRetiredName(data[PendingToolCalls].items[i])
  }

  predicate HoldsRetiredName(call: Json)
  {
    call.Obj? && ("evidence_question" in call.fields || "evidence_intent" in call.fields)
  }

  ghost predicate ReadsPlain<M, C>(w: World<M, C>, data: Payload, plain: map<Field, Json>)
    requires HasLists(data)
  {
    && (forall f: Field :: f in plain)
    && (forall f: Field :: f != FinalizationState ==> PlainAt(w, data, f) == Some(plain[f]))
    && plain[FinalizationState] == Obj(map["legacy_evidence_envelope_observed" := Bool(HoldsEnvelope(data))])
  }

  /** `c` is what the payload says, field by field. */
  ghost predicate Migrates<M, C>(w: World<M, C>, data: Payload, c: Checkpoint<M, C>)
    requires HasLists(data)
  {
    && ReadsMessages(w, data[Messages].items, c.messages)
    && ReadsCalls(w, data[PendingToolCalls].items, c.calls)
    && ReadsSeen(w, data[SeenCallIds].items, c.seen)
    && ReadsPlain(w, data, c.plain)
    && ReadOptionalBatch(w, ValueAt(data, ToolBatch)) == Some(c.batch)
    && c.focus == ReadObject(ValueAt(data, ExecutionFocus)) && (c.legacyFocus <==> ExecutionFocus in data)
    && ReadEach(w, ValueAt(data, ActiveOutcomeIds)) == Some(c.outcomes) && (c.legacyOutcomes <==> ActiveOutcomeIds in data)
    && ReadEach(w, ValueAt(data, EnabledSkills)) == Some(c.enabledSkills)
    && c.evidenceRelation == map[] && c.explorationOutcome == map[] && c.schemaVersion == 2
  }

  // ---- reading lists -------------------------------------------------------

  ghost predicate AreRead<T>(items: seq<Json>, read: Json -> Option<T>, xs: seq<T>)
  {
    |xs| == |items| && forall i :: 0 <= i < |items| ==> read(items[i]) == Some(xs[i])
  }

  lemma {:induction false} ReadAllReads<T>(items: seq<Json>, read: Json -> Option<T>)
    requires ReadAll(items, read).Some?
    ensures AreRead(items, read, ReadAll(items, read).value)
  {
    if items != [] {
      ReadAllReads(items[1..], read);
      var xs := ReadAll(items, read).value;
      assert xs == [read(items[0]).value] + ReadAll(items[1..], read).value;
      assert forall i :: 0 < i < |items| ==> items[i] == items[1..][i - 1] && xs[i] == xs[1..][i - 1];
    }
  }

  lemma {:induction false} ReadsAll<T>(items: seq<Json>, read: Json -> Option<T>, xs: seq<T>)
    requires AreRead(items, read, xs)
    ensures ReadAll(items, read) == Some(xs)
  {
    if items != [] {
      ReadsAll(items[1..], read, xs[1..]);
      assert xs == [xs[0]] + xs[1..];
    }
  }

  lemma ReadAllIsExact<T>(items: seq<Json>, read: Json -> Option<T>, xs: seq<T>)
    ensures ReadAll(items, read) == Some(xs) <==> AreRead(items, read, xs)
  {
    if ReadAll(items, read) == Some(xs) {
      ReadAllReads(items, read);
    }
    if AreRead(items, read, xs) {
      ReadsAll(items, read, xs);
    }
  }

  // ---- calls ---------------------------------------------------------------

  lemma StripsOnce(call: Json, stripped: Json)
    ensures Strips(call, stripped) <==> stripped == UpgradedCall(call)
  {
    if call.Obj? && Strips(call, stripped) {
      assert stripped.fields == call.fields - RETIRED_CALL_FIELDS;
    }
  }

  lemma CallIsRead<M, C>(w: World<M, C>, item: Json, call: C)
    ensures ReadsCall(w, item, call) <==> w.readCall(UpgradedCall(item)) == Some(call)
  {
    StripsOnce(item, UpgradedCall(item));
    if ReadsCall(w, item, call) {
      var stripped :| Strips(item, stripped) && w.readCall(stripped) == Some(call);
      StripsOnce(item, stripped);
    }
  }

  lemma CallsAreRead<M, C>(w: World<M, C>, items: seq<Json>, calls: seq<C>)
    ensures ReadList(Some(UpgradedCalls(List(items))), w.readCall) == Some(calls) <==> ReadsCalls(w, items, calls)
  {
    var upgraded := UpgradedCalls(List(items)).items;
    ReadAllIsExact(upgraded, w.readCall, calls);
    forall i, call | 0 <= i < |items|
      ensures ReadsCall(w, items[i], call) <==> w.readCall(upgraded[i]) == Some(call)
    {
      CallIsRead(w, items[i], call);
    }
  }

  // ---- what is upgraded ----------------------------------------------------

  lemma EnvelopeIsHeld(data: Payload)
    requires HasLists(data)
    ensures EnvelopeObserved(data) <==> HoldsEnvelope(data)
  {
    var items := data[PendingToolCalls].items;
    forall i | 0 <= i < |items|
      ensures IsRetiredCall(items[i]) <==> HoldsRetiredName(items[i])
    {
    }
  }

  lemma UpgradedAt(data: Payload, k: Key)
    ensures ValueAt(Upgraded(data), k) ==
      if k == SchemaVersion then Some(Num(2))
      else if k == Plain(FinalizationState) then
        Some(Obj(map["legacy_evidence_envelope_observed" := Bool(EnvelopeObserved(data))]))
      else if k == PendingToolCalls && k in data then Some(UpgradedCalls(data[k]))
      else if IsRetired(k) || k == CheckpointHash then None
      else ValueAt(data, k)
  {
  }

  lemma PlainAtUpgraded<M, C>(w: World<M, C>, data: Payload, f: Field)
    requires HasLists(data)
    ensures PlainAt(w, Upgraded(data), f) ==
      if f == FinalizationState then Some(Obj(map["legacy_evidence_envelope_observed" := Bool(HoldsEnvelope(data))]))
      else PlainAt(w, data, f)
  {
    EnvelopeIsHeld(data);
    UpgradedAt(data, Plain(f));
  }

  lemma PlainIsReadBack<M, C>(w: World<M, C>, data: Payload, plain: map<Field, Json>)
    requires HasLists(data) && ReadsPlain(w, data, plain)
    ensures PlainReads(w, Upgraded(data)) && plain == ReadPlains(w, Upgraded(data))
  {
    forall f: Field
      ensures PlainAt(w, Upgraded(data), f) == Some(plain[f])
    {
      PlainAtUpgraded(w, data, f);
    }
  }

  lemma PlainIsRead<M, C>(w: World<M, C>, data: Payload, plain: map<Field, Json>)
    requires HasLists(data)
    ensures ReadsPlain(w, data, plain) <==> PlainReads(w, Upgraded(data)) && plain == ReadPlains(w, Upgraded(data))
  {
    if ReadsPlain(w, data, plain) {
      PlainIsReadBack(w, data, plain);
    } else if PlainReads(w, Upgraded(data)) && plain == ReadPlains(w, Upgraded(data)) {
      ReadPlainsReads(w, data);
    }
  }

  lemma ReadPlainsReads<M, C>(w: World<M, C>, data: Payload)
    requires HasLists(data) && PlainReads(w, Upgraded(data))
    ensures ReadsPlain(w, data, ReadPlains(w, Upgraded(data)))
  {
    PlainAtUpgraded(w, data, FinalizationState);
    forall f: Field | f != FinalizationState
      ensures PlainAt(w, data, f) == Some(ReadPlains(w, Upgraded(data))[f])
    {
      PlainAtUpgraded(w, data, f);
    }
  }

  lemma MessagesAreRead<M, C>(w: World<M, C>, data: Payload, messages: seq<M>)
    requires HasLists(data)
    ensures ReadList(ValueAt(Upgraded(data), Messages), w.readMessage) == Some(messages)
            <==> ReadsMessages(w, data[Messages].items, messages)
  {
    UpgradedAt(data, Messages);
    ReadAllIsExact(data[Messages].items, w.readMessage, messages);
  }

  lemma PendingIsRead<M, C>(w: World<M, C>, data: Payload, calls: seq<C>)
    requires HasLists(data)
    ensures ReadList(ValueAt(Upgraded(data), PendingToolCalls), w.readCall) == Some(calls)
            <==> ReadsCalls(w, data[PendingToolCalls].items, calls)
  {
    UpgradedAt(data, PendingToolCalls);
    CallsAreRead(w, data[PendingToolCalls].items, calls);
  }

  lemma SeenIsRead<M, C>(w: World<M, C>, data: Payload, seen: seq<string>)
    requires HasLists(data)
    ensures ReadTexts(w, ValueAt(Upgraded(data), SeenCallIds)) == Some(seen)
            <==> ReadsSeen(w, data[SeenCallIds].items, seen)
  {
    UpgradedAt(data, SeenCallIds);
    if ReadsSeen(w, data[SeenCallIds].items, seen) {
      assert seen == Texts(w, data[SeenCallIds].items);
    }
  }

  lemma OthersAreKept(data: Payload)
    ensures ValueAt(Upgraded(data), ToolBatch) == ValueAt(data, ToolBatch)
    ensures ValueAt(Upgraded(data), ExecutionFocus) == ValueAt(data, ExecutionFocus)
    ensures ValueAt(Upgraded(data), ActiveOutcomeIds) == ValueAt(data, ActiveOutcomeIds)
    ensures ValueAt(Upgraded(data), EnabledSkills) == ValueAt(data, EnabledSkills)
  {
  }

  /** Parsing the upgraded payload reads every field of the payload itself. */
  lemma ParsedMigrates<M, C>(w: World<M, C>, data: Payload, c: Checkpoint<M, C>)
    requires HasLists(data) && Parse(w, Upgraded(data)) == Some(c)
    ensures Migrates(w, data, c)
  {
    MessagesAreRead(w, data, c.messages);
    PendingIsRead(w, data, c.calls);
    SeenIsRead(w, data, c.seen);
    PlainIsRead(w, data, c.plain);
    OthersAreKept(data);
  }

  lemma MigratedParses<M, C>(w: World<M, C>, data: Payload, c: Checkpoint<M, C>)
    requires HasLists(data) && Migrates(w, data, c)
    ensures Parse(w, Upgraded(data)) == Some(c)
  {
    MessagesAreRead(w, data, c.messages);
    PendingIsRead(w, data, c.calls);
    SeenIsRead(w, data, c.seen);
    PlainIsRead(w, data, c.plain);
    OthersAreKept(data);
    ParsedFields(w, Upgraded(data), c);
  }

  /** There is no hash, or it is the hash of all the rest of the payload. */
  predicate HashHolds<M, C>(w: World<M, C>, data: Payload)
  {
    CheckpointHash !in data || data[CheckpointHash].Null?
    || w.text(data[CheckpointHash]) == w.hash(data - {CheckpointHash})
  }

  /** The two renewal counters, as numbers. */
  predicate CountersFine<M, C>(c: Checkpoint<M, C>)
  {
    && (ModelBudgetRenewalCount in c.plain ==> c.plain[ModelBudgetRenewalCount].Num? && c.plain[ModelBudgetRenewalCount].n >= 0)
    && (ModelBudgetTotalGranted in c.plain ==> c.plain[ModelBudgetTotalGranted].Num? && c.plain[ModelBudgetTotalGranted].n >= 0)
  }

  lemma CountersAreFine<M, C>(w: World<M, C>, data: Payload, c: Checkpoint<M, C>)
    requires HasLists(data) && Migrates(w, data, c)
    ensures RenewalsFine(c) <==> CountersFine(c)
  {
    assert PlainAt(w, data, ModelBudgetRenewalCount) == Some(c.plain[ModelBudgetRenewalCount]);
    assert PlainAt(w, data, ModelBudgetTotalGranted) == Some(c.plain[ModelBudgetTotalGranted]);
  }

  /** What comes of a version 1 payload, given what its upgrade is parsed as. */
  function OutcomeOf<M, C>(holds: bool, parsed: Option<Checkpoint<M, C>>): (r: Result<Checkpoint<M, C>, DecodeError>)
  {
    if !holds then Err(IntegrityMismatch)
    else
      match parsed
      case None => Err(Malformed)
      case Some(c) => if RenewalsFine(c) then Ok(c) else Err(NegativeRenewals)
  }

  lemma V1Outcome<M, C>(w: World<M, C>, data: Payload)
    requires HasLists(data) && VersionOf(w, data) == Some(1)
    ensures Decode(w, data) == OutcomeOf(HashHolds(w, data), Parse(w, Upgraded(data)))
  {
    UpgradedHasNoHash(w, data);
  }

  lemma ParsedIsMigrated<M, C>(w: World<M, C>, data: Payload, c: Checkpoint<M, C>)
    requires HasLists(data)
    ensures Parse(w, Upgraded(data)) == Some(c) <==> Migrates(w, data, c)
    ensures Migrates(w, data, c) ==> (RenewalsFine(c) <==> CountersFine(c))
  {
    if Parse(w, Upgraded(data)) == Some(c) {
      ParsedMigrates(w, data, c);
    }
    if Migrates(w, data, c) {
      MigratedParses(w, data, c);
      CountersAreFine(w, data, c);
    }
  }

  lemma OutcomeIs<M, C>(holds: bool, parsed: Option<Checkpoint<M, C>>, c: Checkpoint<M, C>)
    ensures OutcomeOf(holds, parsed) == Ok(c) <==> holds && parsed == Some(c) && RenewalsFine(c)
    ensures OutcomeOf(holds, parsed) == Err(NegativeRenewals) && parsed == Some(c) ==> holds && !RenewalsFine(c)
    ensures OutcomeOf(holds, parsed) == Err(IntegrityMismatch) <==> !holds
    ensures OutcomeOf(holds, parsed) == Err(Malformed) ==> parsed != Some(c)
  {
  }

  /** A version 1 payload is accepted if and only if its hash holds, every field of it can be
      read, and its counters are not negative; and then as exactly what its fields say. */
  lemma V1IsReadAsItStands<M, C>(w: World<M, C>, data: Payload, c: Checkpoint<M, C>)
    requires HasLists(data) && VersionOf(w, data) == Some(1)
    ensures Decode(w, data) == Ok(c) <==> HashHolds(w, data) && Migrates(w, data, c) && CountersFine(c)
    ensures Decode(w, data) == Err(NegativeRenewals) && Migrates(w, data, c) ==> HashHolds(w, data) && !CountersFine(c)
    ensures Decode(w, data) == Err(IntegrityMismatch) <==> !HashHolds(w, data)
    ensures Decode(w, data) == Err(Malformed) ==> !Migrates(w, data, c)
  {
    V1Outcome(w, data);
    ParsedIsMigrated(w, data, c);
    OutcomeIs(HashHolds(w, data), Parse(w, Upgraded(data)), c);
  }

  lemma UpgradedHasNoHash<M, C>(w: World<M, C>, data: Payload)
    ensures StoredHash(w, Upgraded(data)) == None
  {
    UpgradedAt(data, CheckpointHash);
  }
}
