/**
 * The resource descriptors of pkg/analyzer/error.go: each Spanner resource
 * type with the method that releases it, and the diagnostic text built from
 * the pair.
 */
module ResourceTypes {
  import opened Wrappers
  import opened GoStrings

  /** The fixed tail of every diagnostic. */
  const MessageTail: string := "() must be deferred"

  /** A resource type and the cleanup method that must be deferred on it. */
  datatype ResourceType = ResourceType(name: string, closeMethod: string) {

    /** `<Name>.<CloseMethod>() must be deferred`. */
    function CloseMessage(): string {
      name + "." + closeMethod + MessageTail
    }
  }

  /** The descriptor table, keyed by type name. */
  const SpannerResourceTypes: map<string, ResourceType> := map[
    "ReadOnlyTransaction" := ResourceType("ReadOnlyTransaction", "Close"),
    "BatchReadOnlyTransaction" := ResourceType("BatchReadOnlyTransaction", "Close"),
    "RowIterator" := ResourceType("RowIterator", "Stop")
  ]

  /** The index of the first `c` in `s`, if there is one. */
  function FirstIndex(s: string, c: char): (r: Option<nat>)
    ensures r.None? <==> c !in s
    ensures r.Some? ==> r.value < |s| && s[r.value] == c && c !in s[..r.value]
  {
    if s == [] then None
    else if s[0] == c then Some(0)
    else
      var rest := FirstIndex(s[1..], c);
      if rest.None? then None
      else
        assert s[..rest.value + 1] == [s[0]] + s[1..][..rest.value];
        Some(rest.value + 1)
  }

  /**
   * Reads a descriptor back from a diagnostic: the text before the tail,
   * split at its first dot.
   */
  function ParseCloseMessage(m: string): Option<ResourceType> {
    if !HasSuffix(m, MessageTail) then None
    else
      var head := m[..|m| - |MessageTail|];
      var dot := FirstIndex(head, '.');
      if dot.None? then None
      else Some(ResourceType(head[..dot.value], head[dot.value + 1..]))
  }

  /** Every message of a descriptor whose name has no dot reads back as that descriptor. */
  lemma ParseCloseMessageRoundTrip(rt: ResourceType)
    requires '.' !in rt.name
    ensures ParseCloseMessage(rt.CloseMessage()) == Some(rt)
  {
    var m := rt.CloseMessage();
    var head := rt.name + "." + rt.closeMethod;
    assert m == head + MessageTail;
    assert m[..|m| - |MessageTail|] == head;
    assert head[..|rt.name|] == rt.name;
    assert forall k :: 0 <= k < |rt.name| ==> head[k] == rt.name[k];
    assert head[|rt.name|] == '.';
    var dot := FirstIndex(head, '.');
    assert dot.Some? && dot.value == |rt.name|;
    assert head[|rt.name| + 1..] == rt.closeMethod;
  }

  /** Distinct descriptors with dot-free names give distinct messages. */
  lemma CloseMessageInjective(a: ResourceType, b: ResourceType)
    requires '.' !in a.name && '.' !in b.name
    ensures a.CloseMessage() == b.CloseMessage() ==> a == b
  {
    ParseCloseMessageRoundTrip(a);
    ParseCloseMessageRoundTrip(b);
  }

  /** The table holds exactly the three Spanner resource types. */
  lemma TableKeys()
    ensures SpannerResourceTypes.Keys == {"ReadOnlyTransaction", "BatchReadOnlyTransaction", "RowIterator"}
  {
  }

  /** Every entry is filed under its own name, and no name contains a dot. */
  lemma TableNamesMatchKeys()
    ensures forall k :: k in SpannerResourceTypes ==> SpannerResourceTypes[k].name == k
    ensures forall k :: k in SpannerResourceTypes ==> '.' !in SpannerResourceTypes[k].name
  {
    TableKeys();
    forall k | k in SpannerResourceTypes
      ensures SpannerResourceTypes[k].name == k && '.' !in k
    {
      assert k == "ReadOnlyTransaction" || k == "BatchReadOnlyTransaction" || k == "RowIterator";
    }
  }

  /** The two transactions are released by Close, the row iterator by Stop. */
  lemma TableCloseMethods()
    ensures SpannerResourceTypes["ReadOnlyTransaction"].closeMethod == "Close"
    ensures SpannerResourceTypes["BatchReadOnlyTransaction"].closeMethod == "Close"
    ensures SpannerResourceTypes["RowIterator"].closeMethod == "Stop"
  {
  }
}
