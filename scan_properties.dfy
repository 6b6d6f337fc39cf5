/**
 * What the scan promises: which values are reported, with which message and
 * at which position, which are exempt, and how the per-instruction decision
 * carries over to whole functions and whole runs.
 */
module ScanProperties {
  import opened Wrappers
  import opened Frontend
  import opened Registry
  import opened Coverage
  import opened Suppression
  import opened Scanner
  import opened ResourceTypes

  // ---- one instruction ----

  /**
   * A value is reported exactly when it has a registered type, is not exempt,
   * is not covered by a defer and is not suppressed; the report carries the
   * scanner's message for that type at the report position.
   */
  lemma InstrReportedIff(val: Instr, m: map<TypeId, string>, fset: FileSet, files: seq<AstFile>)
    ensures
      var name := GetSpannerType(val.typ, m);
      InstrReport(val, m, fset, files).Some? <==>
        val.IsValue() && name != "" &&
        !(name == ReadOnlyTransaction && IsFromSingle(val)) &&
        !(name == RowIterator && Escapes(val)) &&
        !Covered(val) && !Suppressed(fset, files, ReportPos(val))
    ensures
      InstrReport(val, m, fset, files).Some? ==>
        InstrReport(val, m, fset, files).value == Diagnostic(ReportPos(val), ReportMessage(GetSpannerType(val.typ, m)))
  {
  }

  /** A read-only transaction made by Single is never reported, whatever defers there are. */
  lemma SingleNeverReported(val: Instr, m: map<TypeId, string>, fset: FileSet, files: seq<AstFile>)
    requires GetSpannerType(val.typ, m) == ReadOnlyTransaction && IsFromSingle(val)
    ensures InstrReport(val, m, fset, files).None?
  {
  }

  /** The Single exemption is for read-only transactions only: a batch transaction made by Single, in either call form, is still checked. */
  lemma SingleExemptionIsTypeSpecific(val: Instr, m: map<TypeId, string>, fset: FileSet, files: seq<AstFile>)
    requires val.kind.Call? && IsFromSingle(val)
    requires GetSpannerType(val.typ, m) == BatchReadOnlyTransaction
    requires !Covered(val) && !Suppressed(fset, files, val.pos)
    ensures InstrReport(val, m, fset, files) == Some(Diagnostic(val.pos, ReportMessage(BatchReadOnlyTransaction)))
  {
  }

  /**
   * Only a call counts as coming from Single: a read-only transaction taken out
   * of a tuple, whatever call made the tuple, is checked like any other and
   * reported at the tuple call.
   */
  lemma ExtractedTransactionNeverExempt(val: Instr, tuplePos: Pos, m: map<TypeId, string>, fset: FileSet, files: seq<AstFile>)
    requires val.kind == Extract(Some(tuplePos))
    requires GetSpannerType(val.typ, m) == ReadOnlyTransaction
    requires !Covered(val) && !Suppressed(fset, files, tuplePos)
    ensures InstrReport(val, m, fset, files) == Some(Diagnostic(tuplePos, ReportMessage(ReadOnlyTransaction)))
  {
  }

  /** A row iterator that some Return hands back is never reported. */
  lemma ReturnedIteratorNeverReported(val: Instr, m: map<TypeId, string>, fset: FileSet, files: seq<AstFile>)
    requires GetSpannerType(val.typ, m) == RowIterator && Escapes(val)
    ensures InstrReport(val, m, fset, files).None?
  {
  }

  /** The return exemption is for row iterators only: a returned transaction is still checked. */
  lemma ReturnExemptionIsTypeSpecific(val: Instr, m: map<TypeId, string>, fset: FileSet, files: seq<AstFile>)
    requires val.kind.Call? && !IsFromSingle(val)
    requires GetSpannerType(val.typ, m) == ReadOnlyTransaction
    requires !Covered(val) && !Suppressed(fset, files, val.pos)
    ensures InstrReport(val, m, fset, files) == Some(Diagnostic(val.pos, ReportMessage(ReadOnlyTransaction)))
  {
  }

  /** A value whose referrers include a Defer is never reported. */
  lemma DeferredValueNeverReported(val: Instr, k: nat, m: map<TypeId, string>, fset: FileSet, files: seq<AstFile>)
    requires val.referrers.Some? && k < |val.referrers.value| && val.referrers.value[k].kind.Defer?
    ensures InstrReport(val, m, fset, files).None?
  {
    assert CoversValue(val.referrers.value[k]);
  }

  /**
   * A resource value whose only uses are Close/Stop calls that are not deferred
   * is reported like one that is never closed.
   */
  lemma UndeferredCloseIsReported(val: Instr, m: map<TypeId, string>, fset: FileSet, files: seq<AstFile>)
    requires val.kind.Call? && !IsFromSingle(val) && val.referrers.Some?
    requires forall k :: 0 <= k < |val.referrers.value| ==>
      val.referrers.value[k].kind.Call? && !HasDeferReferrer(val.referrers.value[k])
    requires GetSpannerType(val.typ, m) != "" && !Suppressed(fset, files, val.pos)
    ensures InstrReport(val, m, fset, files) == Some(Diagnostic(val.pos, ReportMessage(GetSpannerType(val.typ, m))))
  {
    UndeferredCleanupIsNotCoverage(val);
  }

  /** An extracted resource is reported at the call that produced the tuple, not at the extraction. */
  lemma ExtractReportedAtTupleCall(val: Instr, tuplePos: Pos, m: map<TypeId, string>, fset: FileSet, files: seq<AstFile>)
    requires val.kind == Extract(Some(tuplePos))
    requires InstrReport(val, m, fset, files).Some?
    ensures InstrReport(val, m, fset, files).value.pos == tuplePos
  {
  }

  // ---- whole functions ----

  /** The reports of a block are exactly the reports of its instructions. */
  lemma {:induction false} InstrsReportsMembers(instrs: seq<Instr>, m: map<TypeId, string>, fset: FileSet, files: seq<AstFile>, d: Diagnostic)
    ensures d in InstrsReports(instrs, m, fset, files) <==>
      exists k :: 0 <= k < |instrs| && InstrReport(instrs[k], m, fset, files) == Some(d)
    decreases |instrs|
  {
    if instrs != [] {
      var init := instrs[..|instrs| - 1];
      InstrsReportsMembers(init, m, fset, files, d);
      if k :| 0 <= k < |init| && InstrReport(init[k], m, fset, files) == Some(d) {
        assert instrs[k] == init[k];
      }
      if k :| 0 <= k < |instrs| && InstrReport(instrs[k], m, fset, files) == Some(d) {
        if k < |init| {
          assert init[k] == instrs[k];
        }
      }
    }
  }

  /** The indices of a block's instructions that are reported. */
  ghost function ReportedAt(instrs: seq<Instr>, m: map<TypeId, string>, fset: FileSet, files: seq<AstFile>): set<nat> {
    set k | 0 <= k < |instrs| && InstrReport(instrs[k], m, fset, files).Some?
  }

  /** Appending an instruction adds its index to the reported ones exactly when it is reported. */
  lemma ReportedAtSnoc(init: seq<Instr>, last: Instr, m: map<TypeId, string>, fset: FileSet, files: seq<AstFile>)
    ensures ReportedAt(init + [last], m, fset, files)
         == ReportedAt(init, m, fset, files) + (if InstrReport(last, m, fset, files).Some? then {|init|} else {})
  {
    var instrs := init + [last];
    forall k | 0 <= k < |init|
      ensures instrs[k] == init[k]
    {
    }
  }

  /** A block yields exactly one report per reported instruction: no value is reported twice. */
  lemma {:induction false} InstrsReportsCount(instrs: seq<Instr>, m: map<TypeId, string>, fset: FileSet, files: seq<AstFile>)
    ensures |InstrsReports(instrs, m, fset, files)| == |ReportedAt(instrs, m, fset, files)|
    decreases |instrs|
  {
    if instrs == [] {
      assert ReportedAt(instrs, m, fset, files) == {};
    } else {
      var n := |instrs| - 1;
      var init := instrs[..n];
      InstrsReportsCount(init, m, fset, files);
      assert instrs == init + [instrs[n]];
      ReportedAtSnoc(init, instrs[n], m, fset, files);
      assert n !in ReportedAt(init, m, fset, files);
    }
  }

  /** The reports of a sequence of blocks are exactly the reports of their instructions. */
  lemma {:induction false} BlocksReportsMembers(blocks: seq<seq<Instr>>, m: map<TypeId, string>, fset: FileSet, files: seq<AstFile>, d: Diagnostic)
    ensures d in BlocksReports(blocks, m, fset, files) <==>
      exists b, k :: 0 <= b < |blocks| && 0 <= k < |blocks[b]| && InstrReport(blocks[b][k], m, fset, files) == Some(d)
    decreases |blocks|
  {
    if blocks != [] {
      var init := blocks[..|blocks| - 1];
      var last := blocks[|blocks| - 1];
      BlocksReportsMembers(init, m, fset, files, d);
      InstrsReportsMembers(last, m, fset, files, d);
      if b, k :| 0 <= b < |init| && 0 <= k < |init[b]| && InstrReport(init[b][k], m, fset, files) == Some(d) {
        assert blocks[b] == init[b];
      }
      if b, k :| 0 <= b < |blocks| && 0 <= k < |blocks[b]| && InstrReport(blocks[b][k], m, fset, files) == Some(d) {
        if b < |init| {
          assert init[b] == blocks[b];
        }
      }
    }
  }

  /** A function in a generated or opted-out file yields no reports. */
  lemma GeneratedFunctionSkipped(fn: Function, m: map<TypeId, string>, fset: FileSet, files: seq<AstFile>)
    requires Generated(fset, files, fn.pos)
    ensures FuncReports(Some(fn), m, fset, files) == []
  {
  }

  /** Every report of a function names a registered type and says `.Close()`. */
  lemma FuncReportMessages(fn: Option<Function>, m: map<TypeId, string>, fset: FileSet, files: seq<AstFile>, d: Diagnostic)
    requires d in FuncReports(fn, m, fset, files)
    ensures exists id :: id in m && d.message == ReportMessage(m[id])
  {
    var blocks := fn.value.blocks;
    BlocksReportsMembers(blocks, m, fset, files, d);
    var b, k :| 0 <= b < |blocks| && 0 <= k < |blocks[b]| && InstrReport(blocks[b][k], m, fset, files) == Some(d);
    var val := blocks[b][k];
    var name := GetSpannerType(val.typ, m);
    assert name != "";
    var id :| id in m && name == m[id] && (val.typ == Named(id) || val.typ == Pointer(Named(id)));
  }

  /** The reports of a run are the reports of its functions. */
  lemma {:induction false} FuncsReportsMembers(fns: seq<Option<Function>>, m: map<TypeId, string>, fset: FileSet, files: seq<AstFile>, d: Diagnostic)
    ensures d in FuncsReports(fns, m, fset, files) <==>
      exists f :: 0 <= f < |fns| && d in FuncReports(fns[f], m, fset, files)
    decreases |fns|
  {
    if fns != [] {
      var init := fns[..|fns| - 1];
      FuncsReportsMembers(init, m, fset, files, d);
      if f :| 0 <= f < |init| && d in FuncReports(init[f], m, fset, files) {
        assert fns[f] == init[f];
      }
      if f :| 0 <= f < |fns| && d in FuncReports(fns[f], m, fset, files) {
        if f < |init| {
          assert init[f] == fns[f];
        }
      }
    }
  }

  // ---- whole runs ----

  /** Without a Spanner package, or with none of the three types in it, a run reports nothing. */
  lemma NoSpannerTypesNoReports(prog: seq<Package>, fns: seq<Option<Function>>, fset: FileSet, files: seq<AstFile>)
    requires FirstSpannerPackage(prog).None? ||
      forall i :: 0 <= i < |ResourceNames| ==> !Resolves(FirstSpannerPackage(prog).value, ResourceNames[i])
    ensures AnalyzerReports(prog, fns, fset, files) == []
  {
    RegistryEmptyIff(prog);
  }

  /**
   * Every message of a run is `<Name>.Close() must be deferred` for one of the
   * three registered names; in particular Client is never reported.
   */
  lemma RunMessages(prog: seq<Package>, fns: seq<Option<Function>>, fset: FileSet, files: seq<AstFile>, d: Diagnostic)
    requires d in AnalyzerReports(prog, fns, fset, files)
    ensures d.message == ReportMessage(ReadOnlyTransaction) ||
            d.message == ReportMessage(BatchReadOnlyTransaction) ||
            d.message == ReportMessage(RowIterator)
  {
    var m := SpannerRegistry(prog);
    FuncsReportsMembers(fns, m, fset, files, d);
    var f :| 0 <= f < |fns| && d in FuncReports(fns[f], m, fset, files);
    FuncReportMessages(fns[f], m, fset, files, d);
    RegistryNames(prog);
  }

  // ---- the scanner's message against the descriptor table ----

  /** The scanner's message is the message of a descriptor whose cleanup method is Close. */
  lemma ReportMessageIsCloseDescriptor(typeName: string)
    ensures ReportMessage(typeName) == ResourceType(typeName, "Close").CloseMessage()
  {
    assert ".Close() must be deferred" == "." + "Close" + MessageTail;
  }

  /** For the two transactions the scanner's message is the table's own message. */
  lemma TransactionMessagesAgree()
    ensures ReportMessage(ReadOnlyTransaction) == SpannerResourceTypes[ReadOnlyTransaction].CloseMessage()
    ensures ReportMessage(BatchReadOnlyTransaction) == SpannerResourceTypes[BatchReadOnlyTransaction].CloseMessage()
  {
    ReportMessageIsCloseDescriptor(ReadOnlyTransaction);
    ReportMessageIsCloseDescriptor(BatchReadOnlyTransaction);
  }

  /**
   * For the row iterator they differ: the scanner says `RowIterator.Close()`
   * where the table's message says `RowIterator.Stop()`.
   */
  lemma RowIteratorMessageDiverges()
    ensures ReportMessage(RowIterator) != SpannerResourceTypes[RowIterator].CloseMessage()
  {
    ReportMessageIsCloseDescriptor(RowIterator);
    TableNamesMatchKeys();
    CloseMessageInjective(ResourceType(RowIterator, "Close"), SpannerResourceTypes[RowIterator]);
  }
}
