/** A hash without collisions exists: writing a payload out in full, with every part
    preceded by its length, is one. So what CheckpointCodec proves about an injective
    hash is about something. The hash itself (SHA-256 over canonical JSON) is not modelled. */
module CanonicalText {
  import opened Common
  import opened CheckpointCodec

  // ---- numbers and strings -------------------------------------------------

  /** Integers as natural numbers: 0, -1, 1, -2, 2, .. */
  function Folded(n: int): (c: nat)
  {
    if n >= 0 then 2 * n else -2 * n - 1
  }

  function CodesOf(s: string): (codes: seq<nat>)
  {
    seq(|s|, i requires 0 <= i < |s| => s[i] as int)
  }

  /** A string with its length in front. */
  function WriteText(s: string): (codes: seq<nat>)
  {
    [|s|] + CodesOf(s)
  }

  lemma TextPrefix(a: string, b: string, x: seq<nat>, y: seq<nat>)
    requires WriteText(a) + x == WriteText(b) + y
    ensures a == b && x == y
  {
    var l, r := WriteText(a) + x, WriteText(b) + y;
    assert l[0] == |a| && r[0] == |b|;
    forall i | 0 <= i < |a|
      ensures a[i] == b[i]
    {
      assert l[i + 1] == a[i] as int && r[i + 1] == b[i] as int;
    }
    assert l[|a| + 1..] == x && r[|a| + 1..] == y;
  }

  lemma FoldedDiffers(n: int, m: int)
    requires Folded(n) == Folded(m)
    ensures n == m
  {
  }

  // ---- values --------------------------------------------------------------

  /** Some key of a map: the order in which a map is written. */
  ghost function Pick<K, V>(m: map<K, V>): (k: K)
    requires m != map[]
    ensures k in m
  {
    var k :| k in m;
    k
  }

  /** `left` are the fields of `j` not written yet. */
  ghost function WriteFields(j: Json, left: map<string, Json>): (codes: seq<nat>)
    requires j.Obj? && forall k :: k in left ==> k in j.fields && left[k] == j.fields[k]
    decreases j, 1, |left|
  {
    if left == map[] then []
    else
      var k := Pick(left);
      WriteText(k) + (WriteJson(j.fields[k]) + WriteFields(j, left - {k}))
  }

  /** The items of `j` from number `i` on. */
  ghost function WriteItems(j: Json, i: nat): (codes: seq<nat>)
    requires j.List? && i <= |j.items|
    decreases j, 1, |j.items| - i
  {
    if i == |j.items| then [] else WriteJson(j.items[i]) + WriteItems(j, i + 1)
  }

  ghost function WriteJson(j: Json): (codes: seq<nat>)
    decreases j, 2
  {
    match j
    case Null => [0]
    case Bool(b) => [1, if b then 1 else 0]
    case Num(n) => [2, Folded(n)]
    case Float(bits) => [3, Folded(bits)]
    case Str(s) => [4] + WriteText(s)
    case List(items) => [5, |items|] + WriteItems(j, 0)
    case Obj(fields) => [6, |fields|] + WriteFields(j, fields)
  }

  lemma DropTwo(a: seq<nat>, b: seq<nat>, x: seq<nat>, y: seq<nat>, c: nat, d: nat, e: nat, f: nat)
    requires ([c, d] + a) + x == ([e, f] + b) + y
    ensures c == e && d == f && a + x == b + y
  {
    var l, r := ([c, d] + a) + x, ([e, f] + b) + y;
    assert l[0] == c && r[0] == e && l[1] == d && r[1] == f;
    assert l[2..] == a + x && r[2..] == b + y;
  }

  lemma DropOne(a: seq<nat>, b: seq<nat>, x: seq<nat>, y: seq<nat>, c: nat, e: nat)
    requires ([c] + a) + x == ([e] + b) + y
    ensures c == e && a + x == b + y
  {
    var l, r := ([c] + a) + x, ([e] + b) + y;
    assert l[0] == c && r[0] == e;
    assert l[1..] == a + x && r[1..] == b + y;
  }

  /** The first code tells the kind of a value. */
  function Tag(j: Json): (t: nat)
  {
    match j
    case Null => 0
    case Bool(_) => 1
    case Num(_) => 2
    case Float(_) => 3
    case Str(_) => 4
    case List(_) => 5
    case Obj(_) => 6
  }

  lemma TagFirst(j: Json, x: seq<nat>)
    ensures |WriteJson(j) + x| > 0 && (WriteJson(j) + x)[0] == Tag(j)
  {
  }

  /** What is written of a value shows where it ends and which value it is. */
  lemma {:induction false} JsonPrefix(a: Json, b: Json, x: seq<nat>, y: seq<nat>)
    requires WriteJson(a) + x == WriteJson(b) + y
    ensures a == b && x == y
    decreases a, 2
  {
    TagFirst(a, x);
    TagFirst(b, y);
    match a
    case Null => assert (WriteJson(a) + x)[1..] == x && (WriteJson(b) + y)[1..] == y;
    case Bool(_) => ScalarPrefix(a, b, x, y);
    case Num(_) => ScalarPrefix(a, b, x, y);
    case Float(_) => ScalarPrefix(a, b, x, y);
    case Str(s) =>
      DropOne(WriteText(s), WriteText(b.s), x, y, 4, 4);
      TextPrefix(s, b.s, x, y);
    case List(items) =>
      DropTwo(WriteItems(a, 0), WriteItems(b, 0), x, y, 5, |items|, 5, |b.items|);
      ItemsPrefix(a, b, 0, x, y);
    case Obj(fields) =>
      DropTwo(WriteFields(a, fields), WriteFields(b, b.fields), x, y, 6, |fields|, 6, |b.fields|);
      FieldsPrefix(a, b, fields, b.fields, x, y);
  }

  lemma ScalarPrefix(a: Json, b: Json, x: seq<nat>, y: seq<nat>)
    requires (a.Bool? && b.Bool?) || (a.Num? && b.Num?) || (a.Float? && b.Float?)
    requires WriteJson(a) + x == WriteJson(b) + y
    ensures a == b && x == y
  {
    var l, r := WriteJson(a), WriteJson(b);
    assert (l + x)[1] == l[1] && (r + y)[1] == r[1];
    assert (l + x)[2..] == x && (r + y)[2..] == y;
    if a.Num? {
      FoldedDiffers(a.n, b.n);
    }
    if a.Float? {
      FoldedDiffers(a.bits, b.bits);
    }
  }

  lemma Reassociate(a: seq<nat>, b: seq<nat>, c: seq<nat>)
    ensures (a + b) + c == a + (b + c)
  {
  }

  lemma {:induction false} ItemsPrefix(a: Json, b: Json, i: nat, x: seq<nat>, y: seq<nat>)
    requires a.List? && b.List? && |a.items| == |b.items| && i <= |a.items| && a.items[..i] == b.items[..i]
    requires WriteItems(a, i) + x == WriteItems(b, i) + y
    ensures a == b && x == y
    decreases a, 1, |a.items| - i
  {
    if i == |a.items| {
      assert a.items[..i] == a.items && b.items[..i] == b.items;
      assert [] + x == x && [] + y == y;
    } else {
      Reassociate(WriteJson(a.items[i]), WriteItems(a, i + 1), x);
      Reassociate(WriteJson(b.items[i]), WriteItems(b, i + 1), y);
      JsonPrefix(a.items[i], b.items[i], WriteItems(a, i + 1) + x, WriteItems(b, i + 1) + y);
      assert a.items[..i + 1] == a.items[..i] + [a.items[i]] && b.items[..i + 1] == b.items[..i] + [b.items[i]];
      ItemsPrefix(a, b, i + 1, x, y);
    }
  }

  ghost predicate FieldsOf(j: Json, left: map<string, Json>)
  {
    j.Obj? && forall k :: k in left ==> k in j.fields && left[k] == j.fields[k]
  }

  lemma {:induction false} FieldsPrefix(a: Json, b: Json, la: map<string, Json>, lb: map<string, Json>,
                                        x: seq<nat>, y: seq<nat>)
    requires FieldsOf(a, la) && FieldsOf(b, lb) && |la| == |lb|
    requires WriteFields(a, la) + x == WriteFields(b, lb) + y
    ensures la == lb && x == y
    decreases a, 1, |la|
  {
    if la == map[] {
      assert lb == map[];
      assert [] + x == x && [] + y == y;
    } else {
      var k, l := Pick(la), Pick(lb);
      var restA, restB := WriteFields(a, la - {k}), WriteFields(b, lb - {l});
      var tailA, tailB := WriteJson(a.fields[k]) + restA, WriteJson(b.fields[l]) + restB;
      Reassociate(WriteText(k), tailA, x);
      Reassociate(WriteText(l), tailB, y);
      TextPrefix(k, l, tailA + x, tailB + y);
      Reassociate(WriteJson(a.fields[k]), restA, x);
      Reassociate(WriteJson(b.fields[l]), restB, y);
      JsonPrefix(a.fields[k], b.fields[l], restA + x, restB + y);
      FieldsPrefix(a, b, la - {k}, lb - {k}, x, y);
      PutBack(la, lb, k);
    }
  }

  lemma PutBack<K, V>(m: map<K, V>, n: map<K, V>, k: K)
    requires k in m && k in n && m[k] == n[k] && m - {k} == n - {k}
    ensures m == n
  {
    forall l | l in m || l in n
      ensures l in m && l in n && m[l] == n[l]
    {
      if l != k {
        assert l in m - {k} <==> l in n - {k};
        assert l in m ==> (m - {k})[l] == m[l];
        assert l in n ==> (n - {k})[l] == n[l];
      }
    }
  }

  // ---- payloads ------------------------------------------------------------

  function FieldNumber(f: Field): (n: nat)
  {
    match f
    case TaskId => 0 case TurnId => 1 case Revision => 2 case ModelCalls => 3 case ToolCalls => 4
    case InputTokens => 5 case OutputTokens => 6 case MaxModelCalls => 7 case MaxToolCalls => 8
    case MaxOutputTokens => 9 case ToolTimeoutSeconds => 10 case ReasoningEffort => 11 case ModelProfileId => 12
    case FinalizationState => 13 case ModelBudgetRenewalCount => 14 case ModelBudgetTotalGranted => 15
    case WorkspaceFingerprint => 16 case EffectiveConfigHash => 17 case ToolsetHash => 18
    case PromptManifestHash => 19 case SessionId => 20 case SessionContextHash => 21 case WorkingMemoryHash => 22
    case LastSteeringInboundSequence => 23 case GoalRevision => 24 case ActionProgress => 25
    case EvidenceInventory => 26 case ReadHitsState => 27 case ArtifactReadState => 28
    case ProgressiveScopeState => 29 case ExplorationBudgetState => 30 case StopOrPivotState => 31
    case RejectionLoopState => 32 case TaskSpecRevision => 33 case TaskSpecHash => 34 case PendingUserAction => 35
  }

  function KeyNumber(k: Key): (n: nat)
  {
    match k
    case Plain(f) => 20 + FieldNumber(f)
    case SchemaVersion => 0 case CheckpointHash => 1 case Messages => 2 case PendingToolCalls => 3
    case SeenCallIds => 4 case ExecutionFocus => 5 case ActiveOutcomeIds => 6 case ToolBatch => 7
    case EnabledSkills => 8 case EvidenceQuestionState => 9 case CompletionReadinessState => 10
    case EvidenceRelationState => 11 case ExplorationOutcomeState => 12
    case Other(_) => 13
  }

  function WriteKey(k: Key): (codes: seq<nat>)
  {
    [KeyNumber(k)] + WriteText(if k.Other? then k.name else "")
  }

  lemma KeyNumberDiffers(k: Key, l: Key)
    requires KeyNumber(k) == KeyNumber(l) && !k.Other?
    ensures k == l
  {
  }

  lemma KeyPrefix(k: Key, l: Key, x: seq<nat>, y: seq<nat>)
    requires WriteKey(k) + x == WriteKey(l) + y
    ensures k == l && x == y
  {
    var a, b := if k.Other? then k.name else "", if l.Other? then l.name else "";
    DropOne(WriteText(a), WriteText(b), x, y, KeyNumber(k), KeyNumber(l));
    TextPrefix(a, b, x, y);
    if !k.Other? {
      KeyNumberDiffers(k, l);
    }
  }

  ghost function WritePayload(p: Payload): (codes: seq<nat>)
    decreases |p|
  {
    if p == map[] then []
    else
      var k := Pick(p);
      WriteKey(k) + (WriteJson(p[k]) + WritePayload(p - {k}))
  }

  lemma {:induction false} PayloadDiffers(p: Payload, q: Payload)
    requires |p| == |q| && WritePayload(p) == WritePayload(q)
    ensures p == q
    decreases |p|
  {
    if p != map[] {
      var k, l := Pick(p), Pick(q);
      var restP, restQ := WritePayload(p - {k}), WritePayload(q - {l});
      KeyPrefix(k, l, WriteJson(p[k]) + restP, WriteJson(q[l]) + restQ);
      JsonPrefix(p[k], q[l], restP, restQ);
      PayloadDiffers(p - {k}, q - {k});
      PutBack(p, q, k);
    } else {
      assert q == map[];
    }
  }

  // ---- the text ------------------------------------------------------------

  function Tally(n: nat): (s: string)
  {
    seq(n, i => '1')
  }

  /** Codes in unary, each closed by a comma. */
  function Spell(codes: seq<nat>): (s: string)
  {
    if codes == [] then "" else Tally(codes[0]) + ("," + Spell(codes[1..]))
  }

  lemma TallyPrefix(n: nat, m: nat, x: string, y: string)
    requires Tally(n) + ("," + x) == Tally(m) + ("," + y)
    ensures n == m && x == y
  {
    var l, r := Tally(n) + ("," + x), Tally(m) + ("," + y);
    assert l[n] == ',' && r[m] == ',';
    assert forall i :: 0 <= i < n ==> l[i] == '1';
    assert forall i :: 0 <= i < m ==> r[i] == '1';
    assert n == m;
    assert l[n + 1..] == x && r[m + 1..] == y;
  }

  lemma {:induction false} SpellDiffers(a: seq<nat>, b: seq<nat>)
    requires Spell(a) == Spell(b)
    ensures a == b
    decreases |a|
  {
    if a != [] && b != [] {
      TallyPrefix(a[0], b[0], Spell(a[1..]), Spell(b[1..]));
      SpellDiffers(a[1..], b[1..]);
      assert a == [a[0]] + a[1..] && b == [b[0]] + b[1..];
    }
  }

  ghost function TextOf(p: Payload): (text: string)
  {
    Spell([|p|] + WritePayload(p))
  }

  /** Different payloads have different texts. */
  lemma TextDiffers(p: Payload, q: Payload)
    requires TextOf(p) == TextOf(q)
    ensures p == q
  {
    var a, b := [|p|] + WritePayload(p), [|q|] + WritePayload(q);
    SpellDiffers(a, b);
    assert a[0] == |p| && b[0] == |q|;
    assert a[1..] == WritePayload(p) && b[1..] == WritePayload(q);
    PayloadDiffers(p, q);
  }

  /** The assumptions about conversions, codecs and an injective hash can all be met. */
  lemma AssumptionsCanBeMet()
    ensures exists w: World<Json, Json> :: Faithful(w) && InjectiveHash(w)
  {
    var w: World<Json, Json> := World(
      (j: Json) => if j.Str? then j.s else "", (j: Json) => if j.Num? then Some(j.n) else None,
      (j: Json) => if j.Float? then Some(j.bits) else None, (j: Json) => if j.List? then Some(j.items) else None,
      (j: Json) => Some(j), (j: Json) => j, (j: Json) => Some(j), (j: Json) => j,
      (j: Json) => if j.Str? then j.s else "",
      (p: Payload) => TextOf(p));
    forall a: Payload, b: Payload | w.hash(a) == w.hash(b)
      ensures a == b
    {
      TextDiffers(a, b);
    }
    assert Faithful(w) && InjectiveHash(w);
  }
}
