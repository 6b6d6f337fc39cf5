/**
 * The coverage decision of pkg/analyzer/defer_only.go: whether a resource
 * value is released by a deferred call, and the two exemptions (a read-only
 * transaction made by Single, a row iterator handed back to the caller).
 */
module Coverage {
  import opened Wrappers
  import opened Frontend

  /** The cleanup method names accepted, whatever the resource type. */
  predicate IsCleanupName(name: string) {
    name == "Close" || name == "Stop"
  }

  /** Some referrer of `call` is a Defer. */
  predicate HasDeferReferrer(call: Instr) {
    call.referrers.Some? &&
    exists k :: 0 <= k < |call.referrers.value| && call.referrers.value[k].kind.Defer?
  }

  /** `ref` is a Close/Stop method call that is itself used by a Defer. */
  predicate IsDeferredCleanupCall(ref: Instr) {
    ref.kind.Call? && ref.kind.methodName.Some? && IsCleanupName(ref.kind.methodName.value) &&
    HasDeferReferrer(ref)
  }

  /** A single referrer that establishes coverage. */
  predicate CoversValue(ref: Instr) {
    ref.kind.Defer? || IsDeferredCleanupCall(ref)
  }

  /** The value is covered: some referrer is a Defer or a deferred Close/Stop call. */
  predicate Covered(val: Instr) {
    val.referrers.Some? &&
    exists k :: 0 <= k < |val.referrers.value| && CoversValue(val.referrers.value[k])
  }

  /** hasDeferredClose: scans the referrers, stopping at the first that covers the value. */
  method HasDeferredClose(val: Instr) returns (b: bool)
    ensures b == Covered(val)
  {
    if val.referrers.None? {
      return false;
    }
    var refs := val.referrers.value;
    for i := 0 to |refs|
      invariant forall k :: 0 <= k < i ==> !CoversValue(refs[k])
    {
      var ref := refs[i];
      if ref.kind.Defer? {
        return true;
      }
      if ref.kind.Call? {
        if ref.kind.methodName.Some? {
          var methodName := ref.kind.methodName.value;
          if methodName == "Close" || methodName == "Stop" {
            if ref.referrers.Some? {
              var callRefs := ref.referrers.value;
              for j := 0 to |callRefs|
                invariant forall k :: 0 <= k < j ==> !callRefs[k].kind.Defer?
              {
                if callRefs[j].kind.Defer? {
                  return true;
                }
              }
            }
          }
        }
      }
    }
    return false;
  }

  /** isFromSingle: the value is a call whose interface method or called value is named Single. */
  predicate IsFromSingle(val: Instr) {
    val.kind.Call? &&
    (val.kind.methodName == Some("Single") || val.kind.callee == Some("Single"))
  }

  /** `ref` is a Return listing the value `id` among its results. */
  predicate ReturnsValue(ref: Instr, id: ValueId) {
    ref.kind.Return? && exists r :: 0 <= r < |ref.kind.results| && ref.kind.results[r] == id
  }

  /** The value escapes: some referrer returns it. */
  predicate Escapes(val: Instr) {
    val.referrers.Some? &&
    exists k :: 0 <= k < |val.referrers.value| && ReturnsValue(val.referrers.value[k], val.id)
  }

  /** isReturnedFromFunction: scans the referrers for a Return listing the value (the function is not consulted). */
  method IsReturnedFromFunction(fn: Function, val: Instr) returns (b: bool)
    ensures b == Escapes(val)
  {
    if val.referrers.None? {
      return false;
    }
    var refs := val.referrers.value;
    for i := 0 to |refs|
      invariant forall k :: 0 <= k < i ==> !ReturnsValue(refs[k], val.id)
    {
      var ref := refs[i];
      if ref.kind.Return? {
        var results := ref.kind.results;
        for r := 0 to |results|
          invariant forall q :: 0 <= q < r ==> results[q] != val.id
        {
          if results[r] == val.id {
            return true;
          }
        }
      }
    }
    return false;
  }

  /** A value with no referrers is never covered and never escapes. */
  lemma NilReferrers(val: Instr)
    requires val.referrers.None?
    ensures !Covered(val) && !Escapes(val)
  {
  }

  /**
   * Calling Close or Stop is not coverage unless that call is deferred: a value
   * whose referrers are all non-deferred calls is not covered.
   */
  lemma UndeferredCleanupIsNotCoverage(val: Instr)
    requires val.referrers.Some?
    requires forall k :: 0 <= k < |val.referrers.value| ==>
      val.referrers.value[k].kind.Call? && !HasDeferReferrer(val.referrers.value[k])
    ensures !Covered(val)
  {
  }

  /** A deferred Stop covers any resource, a transaction included: the method name is not matched to the type. */
  lemma DeferredStopCoversAnything(val: Instr, call: Instr, d: Instr)
    requires call.kind == Call(Some("Stop"), None) && d.kind.Defer?
    requires call.referrers == Some([d]) && val.referrers == Some([call])
    ensures Covered(val)
  {
    assert call.referrers.value[0].kind.Defer?;
    assert CoversValue(val.referrers.value[0]);
  }
}
