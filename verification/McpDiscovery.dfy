/** Names of MCP tools, and the discovery of what one server offers
    (adapters/mcp_tool_provider.py). */
module McpDiscovery {
  import opened Common

  // ---- names ---------------------------------------------------------------

  const TOOL_PREFIX := "mcp."
  const DISCOVERY_TOOL := "core.mcp_discover"

  predicate IdChar(c: char)
  {
    'A' <= c <= 'Z' || 'a' <= c <= 'z' || '0' <= c <= '9' || c == '_' || c == '-'
  }

  /** What a server configuration accepts as its identity. */
  predicate ValidId(id: string)
  {
    id != "" && forall i :: 0 <= i < |id| ==> IdChar(id[i])
  }

  function FullName(id: string, tool: string): (name: string)
  {
    TOOL_PREFIX + id + "." + tool
  }

  predicate OccursAt(s: string, sep: string, i: int)
  {
    0 <= i <= |s| - |sep| && s[i..i + |sep|] == sep
  }

  /** Python's `str.partition`: the text before the first separator and the text after it. */
  function Partition(s: string, sep: string): (r: Option<(string, string)>)
    requires sep != ""
    ensures r.Some? ==> s == r.value.0 + sep + r.value.1
    ensures r.Some? ==> forall i :: 0 <= i < |r.value.0| ==> !OccursAt(s, sep, i)
    ensures r.None? ==> forall i :: 0 <= i < |s| ==> !OccursAt(s, sep, i)
  {
    PartitionFrom(s, sep, 0)
  }

  function PartitionFrom(s: string, sep: string, i: nat): (r: Option<(string, string)>)
    requires sep != "" && i <= |s|
    requires forall k :: 0 <= k < i ==> !OccursAt(s, sep, k)
    ensures r.Some? ==> s == r.value.0 + sep + r.value.1
    ensures r.Some? ==> forall k :: 0 <= k < |r.value.0| ==> !OccursAt(s, sep, k)
    ensures r.None? ==> forall k :: 0 <= k < |s| ==> !OccursAt(s, sep, k)
    decreases |s| - i
  {
    if i == |s| then None
    else if OccursAt(s, sep, i) then Some((s[..i], s[i + |sep|..]))
    else PartitionFrom(s, sep, i + 1)
  }

  function ParseToolName(name: string): (r: Option<(string, string)>)
  {
    match Partition(name, TOOL_PREFIX)
    case None => None
    case Some(outer) =>
      if outer.0 != "" then None
      else
        match Partition(outer.1, ".")
        case None => None
        case Some(inner) => if inner.0 == "" || inner.1 == "" then None else Some(inner)
  }

  /** Parsing is exactly the inverse of naming: over all strings, a name parses to a
      server and a tool if and only if it is that tool's full name and the parts could
      come from a configuration. */
  lemma ParsesExactlyFullNames(name: string, id: string, tool: string)
    ensures ParseToolName(name) == Some((id, tool))
            <==> name == FullName(id, tool) && id != "" && tool != "" && '.' !in id
  {
    if name == FullName(id, tool) && id != "" && tool != "" && '.' !in id {
      assert name == TOOL_PREFIX + (id + "." + tool);
      PartitionIsFirst(name, TOOL_PREFIX, "", id + "." + tool);
      forall i | 0 <= i < |id|
        ensures !OccursAt(id + "." + tool, ".", i)
      {
        assert (id + "." + tool)[i] == id[i];
      }
      PartitionIsFirst(id + "." + tool, ".", id, tool);
    }
    if ParseToolName(name) == Some((id, tool)) {
      var outer := Partition(name, TOOL_PREFIX).value;
      assert outer.1 == id + "." + tool;
      assert name == FullName(id, tool);
      forall i | 0 <= i < |id|
        ensures id[i] != '.'
      {
        assert !OccursAt(outer.1, ".", i);
        assert outer.1[i..i + 1] == [id[i]];
      }
    }
  }

  lemma PartitionIsFirst(s: string, sep: string, head: string, tail: string)
    requires sep != "" && s == head + sep + tail
    requires forall i :: 0 <= i < |head| ==> !OccursAt(s, sep, i)
    ensures Partition(s, sep) == Some((head, tail))
  {
    assert s[|head|..|head| + |sep|] == sep;
    assert OccursAt(s, sep, |head|);
    var r := Partition(s, sep).value;
    assert s[|r.0|..|r.0| + |sep|] == sep;
    assert OccursAt(s, sep, |r.0|);
    assert |r.0| == |head|;
    assert s[..|head|] == head && s[..|r.0|] == r.0;
    assert s[|head| + |sep|..] == tail && s[|r.0| + |sep|..] == r.1;
  }

  lemma ValidIdsAreDotFree(id: string)
    requires ValidId(id)
    ensures '.' !in id
  {
  }

  lemma FullNamesDiffer(id: string, tool: string, otherId: string, otherTool: string)
    requires ValidId(id) && ValidId(otherId) && tool != "" && otherTool != ""
    requires FullName(id, tool) == FullName(otherId, otherTool)
    ensures id == otherId && tool == otherTool
  {
    ParsesExactlyFullNames(FullName(id, tool), id, tool);
    ParsesExactlyFullNames(FullName(id, tool), otherId, otherTool);
  }

  // ---- discovery -----------------------------------------------------------

  /** A tool as a server advertises it; a name that is not a string, or a schema that
      is not a JSON object schema, is None. */
  datatype RawTool = RawTool(name: Option<string>, schema: Option<string>)

  datatype Spec = Spec(name: string, schema: string)

  datatype DiscoveryError = Unnamed | Duplicate | BadSchema

  predicate Named(raw: RawTool)
  {
    raw.name.Some? && raw.name.value != ""
  }

  /** What the discovery loop objects to in tool `i`, given the tools before it. */
  ghost function Complaint(raws: seq<RawTool>, i: nat): Option<DiscoveryError>
    requires i < |raws|
  {
    if !Named(raws[i]) then Some(Unnamed)
    else if exists j :: 0 <= j < i && raws[j].name == raws[i].name then Some(Duplicate)
    else if raws[i].schema.None? then Some(BadSchema)
    else None
  }

  ghost predicate Acceptable(raws: seq<RawTool>)
  {
    forall i :: 0 <= i < |raws| ==> Complaint(raws, i) == None
  }

  /** Every tool has a name of its own that is not empty, and a schema. */
  predicate AllNamed(raws: seq<RawTool>)
  {
    && (forall i :: 0 <= i < |raws| ==> raws[i].name.Some? && raws[i].name.value != "" && raws[i].schema.Some?)
    && (forall i, j :: 0 <= i < j < |raws| ==> raws[i].name != raws[j].name)
  }

  /** The specs of the tools, in order. */
  ghost predicate IsListing(id: string, raws: seq<RawTool>, specs: seq<Spec>)
  {
    && |specs| == |raws| && AllNamed(raws)
    && forall i :: 0 <= i < |raws| ==>
         specs[i] == Spec("mcp." + id + "." + raws[i].name.value, raws[i].schema.value)
  }

  lemma ComplaintsAreNames(raws: seq<RawTool>)
    ensures Acceptable(raws) <==> AllNamed(raws)
  {
    if Acceptable(raws) {
      forall i | 0 <= i < |raws|
        ensures raws[i].name.Some? && raws[i].name.value != "" && raws[i].schema.Some?
        ensures forall j :: 0 <= j < i ==> raws[j].name != raws[i].name
      {
        assert Complaint(raws, i) == None;
      }
    }
  }

  lemma ListingIsListing(id: string, raws: seq<RawTool>)
    requires Acceptable(raws)
    ensures IsListing(id, raws, Listing(id, raws))
  {
    ComplaintsAreNames(raws);
  }

  ghost function SpecOf(id: string, raw: RawTool): Spec
  {
    Spec(FullName(id, if raw.name.Some? then raw.name.value else ""), if raw.schema.Some? then raw.schema.value else "")
  }

  ghost function Listing(id: string, raws: seq<RawTool>): seq<Spec>
  {
    seq(|raws|, i requires 0 <= i < |raws| => SpecOf(id, raws[i]))
  }

  /** All of a server's tools or none of them: the first complaint is raised. */
  method DiscoverTools(id: string, raws: seq<RawTool>) returns (r: Result<seq<Spec>, DiscoveryError>)
    ensures r.Ok? <==> Acceptable(raws)
    ensures r.Ok? ==> r.value == Listing(id, raws)
    // in terms of the tools alone
    ensures r.Ok? <==> AllNamed(raws)
    ensures r.Ok? ==> IsListing(id, raws, r.value)
    ensures r.Err? ==> exists i :: 0 <= i < |raws| && Complaint(raws, i) == Some(r.error)
                                   && forall j :: 0 <= j < i ==> Complaint(raws, j) == None
  {
    ComplaintsAreNames(raws);
    var specs: seq<Spec> := [];
    var names: set<string> := {};
    for i := 0 to |raws|
      invariant forall j :: 0 <= j < i ==> Complaint(raws, j) == None
      invariant specs == Listing(id, raws[..i])
      invariant forall j :: 0 <= j < i ==> Named(raws[j]) && FullName(id, raws[j].name.value) in names
      invariant forall n :: n in names ==> exists j :: 0 <= j < i && Named(raws[j]) && n == FullName(id, raws[j].name.value)
    {
      var raw := raws[i];
      if raw.name.None? || raw.name.value == "" {
        assert Complaint(raws, i) == Some(Unnamed);
        return Err(Unnamed);
      }
      var full := FullName(id, raw.name.value);
      if full in names {
        var j :| 0 <= j < i && Named(raws[j]) && full == FullName(id, raws[j].name.value);
        SameTool(id, raw.name.value, raws[j].name.value);
        assert Complaint(raws, i) == Some(Duplicate);
        return Err(Duplicate);
      }
      assert forall j :: 0 <= j < i ==> raws[j].name != raw.name;
      if raw.schema.None? {
        assert Complaint(raws, i) == Some(BadSchema);
        return Err(BadSchema);
      }
      assert raws[..i + 1] == raws[..i] + [raw];
      specs := specs + [Spec(full, raw.schema.value)];
      names := names + {full};
    }
    assert raws[..|raws|] == raws;
    ListingIsListing(id, raws);
    return Ok(specs);
  }

  lemma SameTool(id: string, tool: string, other: string)
    requires FullName(id, tool) == FullName(id, other)
    ensures tool == other
  {
    assert FullName(id, tool)[|TOOL_PREFIX| + |id| + 1..] == tool;
    assert FullName(id, other)[|TOOL_PREFIX| + |id| + 1..] == other;
  }
}
