/**
 * The scan of pkg/analyzer/defer_only.go: deferOnlyAnalyzer builds the
 * registry and runs checkFunc on every source function; checkFunc walks every
 * instruction of every block and reports each uncovered, unexempted,
 * unsuppressed Spanner resource value once.
 */
module Scanner {
  import opened Wrappers
  import opened Frontend
  import opened Registry
  import opened Coverage
  import opened Suppression
  import ResourceTypes

  /** The scanner's message: always `.Close()`, whatever the resource's own cleanup method. */
  function ReportMessage(typeName: string): string {
    typeName + ".Close() must be deferred"
  }

  /** Where a report goes: the tuple call of an Extract with a tuple, else the value's own position. */
  function ReportPos(val: Instr): Pos {
    if val.kind.Extract? && val.kind.tuple.Some? then val.kind.tuple.value else val.pos
  }

  /** The report one instruction produces, if any. */
  function InstrReport(val: Instr, m: map<TypeId, string>, fset: FileSet, files: seq<AstFile>): Option<Diagnostic> {
    if !val.IsValue() then None
    else
      var typeName := GetSpannerType(val.typ, m);
      if typeName == "" then None
      else if typeName == ReadOnlyTransaction && IsFromSingle(val) then None
      else if typeName == RowIterator && Escapes(val) then None
      else if Covered(val) then None
      else if Suppressed(fset, files, ReportPos(val)) then None
      else Some(Diagnostic(ReportPos(val), ReportMessage(typeName)))
  }

  function AsSeq(r: Option<Diagnostic>): seq<Diagnostic> {
    if r.Some? then [r.value] else []
  }

  /** The reports of a block's instructions, in order. */
  function InstrsReports(instrs: seq<Instr>, m: map<TypeId, string>, fset: FileSet, files: seq<AstFile>): seq<Diagnostic>
    decreases |instrs|
  {
    if instrs == [] then []
    else InstrsReports(instrs[..|instrs| - 1], m, fset, files) + AsSeq(InstrReport(instrs[|instrs| - 1], m, fset, files))
  }

  /** The reports of a sequence of blocks, block by block. */
  function BlocksReports(blocks: seq<seq<Instr>>, m: map<TypeId, string>, fset: FileSet, files: seq<AstFile>): seq<Diagnostic>
    decreases |blocks|
  {
    if blocks == [] then []
    else BlocksReports(blocks[..|blocks| - 1], m, fset, files) + InstrsReports(blocks[|blocks| - 1], m, fset, files)
  }

  /** Extending a prefix of a block by one instruction appends that instruction's report. */
  lemma InstrsReportsStep(instrs: seq<Instr>, k: nat, m: map<TypeId, string>, fset: FileSet, files: seq<AstFile>)
    requires k < |instrs|
    ensures InstrsReports(instrs[..k + 1], m, fset, files) == InstrsReports(instrs[..k], m, fset, files) + AsSeq(InstrReport(instrs[k], m, fset, files))
  {
    assert instrs[..k + 1][..k] == instrs[..k];
  }

  /** Extending a prefix of blocks by one block appends that block's reports. */
  lemma BlocksReportsStep(blocks: seq<seq<Instr>>, k: nat, m: map<TypeId, string>, fset: FileSet, files: seq<AstFile>)
    requires k < |blocks|
    ensures BlocksReports(blocks[..k + 1], m, fset, files) == BlocksReports(blocks[..k], m, fset, files) + InstrsReports(blocks[k], m, fset, files)
  {
    assert blocks[..k + 1][..k] == blocks[..k];
  }

  /** The reports of one function: none for a nil function or one in a skipped file. */
  function FuncReports(fn: Option<Function>, m: map<TypeId, string>, fset: FileSet, files: seq<AstFile>): seq<Diagnostic> {
    if fn.None? || Generated(fset, files, fn.value.pos) then []
    else BlocksReports(fn.value.blocks, m, fset, files)
  }

  /** The reports of the source functions, function by function. */
  function FuncsReports(fns: seq<Option<Function>>, m: map<TypeId, string>, fset: FileSet, files: seq<AstFile>): seq<Diagnostic>
    decreases |fns|
  {
    if fns == [] then []
    else FuncsReports(fns[..|fns| - 1], m, fset, files) + FuncReports(fns[|fns| - 1], m, fset, files)
  }

  /** Extending the prefix of functions by one appends that function's reports. */
  lemma FuncsReportsStep(fns: seq<Option<Function>>, k: nat, m: map<TypeId, string>, fset: FileSet, files: seq<AstFile>)
    requires k < |fns|
    ensures FuncsReports(fns[..k + 1], m, fset, files) == FuncsReports(fns[..k], m, fset, files) + FuncReports(fns[k], m, fset, files)
  {
    assert fns[..k + 1][..k] == fns[..k];
  }

  /** All reports of one analysis run: none when the registry is empty. */
  function AnalyzerReports(prog: seq<Package>, fns: seq<Option<Function>>, fset: FileSet, files: seq<AstFile>): seq<Diagnostic> {
    var m := SpannerRegistry(prog);
    if |m| == 0 then [] else FuncsReports(fns, m, fset, files)
  }

  /** The body of checkFunc's instruction loop: reports `val` if it is an uncovered, unexempted, unsuppressed resource. */
  method CheckInstr(pass: Pass, f: Function, val: Instr, spannerTypes: TypeMap)
    modifies pass`reports
    ensures pass.reports == old(pass.reports) + AsSeq(InstrReport(val, spannerTypes.entries, pass.fset, pass.files))
  {
    if !val.IsValue() {
      return;
    }
    var typeName := GetSpannerType(val.typ, spannerTypes.entries);
    if typeName == "" {
      return;
    }
    if typeName == "ReadOnlyTransaction" && IsFromSingle(val) {
      return;
    }
    if typeName == "RowIterator" {
      var returned := IsReturnedFromFunction(f, val);
      if returned {
        return;
      }
    }
    var covered := HasDeferredClose(val);
    if covered {
      return;
    }
    var pos := val.pos;
    if val.kind.Extract? {
      if val.kind.tuple.Some? {
        pos := val.kind.tuple.value;
      }
    }
    var suppressed := HasNolintDirective(pass, pos);
    if !suppressed {
      pass.Reportf(pos, typeName + ".Close() must be deferred");
    }
  }

  /** checkFunc: appends the reports of `fn` to the pass. */
  method CheckFunc(pass: Pass, fn: Option<Function>, spannerTypes: TypeMap)
    modifies pass`reports
    ensures pass.reports == old(pass.reports) + FuncReports(fn, spannerTypes.entries, pass.fset, pass.files)
  {
    if fn.None? {
      return;
    }
    var f := fn.value;
    var generated := IsGeneratedFile(pass, f.pos);
    if generated {
      return;
    }
    CheckBlocks(pass, f, spannerTypes);
  }

  /** checkFunc's loop over the blocks: appends the reports of every block, in order. */
  method CheckBlocks(pass: Pass, f: Function, spannerTypes: TypeMap)
    modifies pass`reports
    ensures pass.reports == old(pass.reports) + BlocksReports(f.blocks, spannerTypes.entries, pass.fset, pass.files)
  {
    ghost var m := spannerTypes.entries;
    for bi := 0 to |f.blocks|
      invariant pass.reports == old(pass.reports) + BlocksReports(f.blocks[..bi], m, pass.fset, pass.files)
    {
      BlocksReportsStep(f.blocks, bi, m, pass.fset, pass.files);
      CheckBlock(pass, f, f.blocks[bi], spannerTypes);
    }
    assert f.blocks[..|f.blocks|] == f.blocks;
  }

  /** checkFunc's loop over one block's instructions: appends the block's reports. */
  method CheckBlock(pass: Pass, f: Function, block: seq<Instr>, spannerTypes: TypeMap)
    modifies pass`reports
    ensures pass.reports == old(pass.reports) + InstrsReports(block, spannerTypes.entries, pass.fset, pass.files)
  {
    ghost var m := spannerTypes.entries;
    for ii := 0 to |block|
      invariant pass.reports == old(pass.reports) + InstrsReports(block[..ii], m, pass.fset, pass.files)
    {
      InstrsReportsStep(block, ii, m, pass.fset, pass.files);
      CheckInstr(pass, f, block[ii], spannerTypes);
    }
    assert block[..|block|] == block;
  }

  /**
   * The registration phase of deferOnlyAnalyzer: a fresh map, filled from the
   * first package whose path is the Spanner client's.
   */
  method RegisterSpannerTypes(allPackages: seq<Package>) returns (spannerTypes: TypeMap)
    ensures fresh(spannerTypes)
    ensures spannerTypes.entries == SpannerRegistry(allPackages)
  {
    spannerTypes := new TypeMap();
    var i := 0;
    while i < |allPackages|
      invariant 0 <= i <= |allPackages|
      invariant spannerTypes.entries == map[]
      invariant FirstSpannerPackage(allPackages[i..]) == FirstSpannerPackage(allPackages)
    {
      var pkg := allPackages[i];
      if pkg.path == SpannerPath {
        RegisterType(pkg, ReadOnlyTransaction, spannerTypes);
        RegisterType(pkg, BatchReadOnlyTransaction, spannerTypes);
        RegisterType(pkg, RowIterator, spannerTypes);
        assert FirstSpannerPackage(allPackages[i..]) == Some(pkg);
        return;
      }
      assert allPackages[i..][1..] == allPackages[i + 1..];
      i := i + 1;
    }
  }

  /** The checking phase of deferOnlyAnalyzer: checkFunc on every source function, in order. */
  method CheckFuncs(pass: Pass, srcFuncs: seq<Option<Function>>, spannerTypes: TypeMap)
    modifies pass`reports
    ensures pass.reports == old(pass.reports) + FuncsReports(srcFuncs, spannerTypes.entries, pass.fset, pass.files)
  {
    ghost var m := spannerTypes.entries;
    for k := 0 to |srcFuncs|
      invariant pass.reports == old(pass.reports) + FuncsReports(srcFuncs[..k], m, pass.fset, pass.files)
    {
      FuncsReportsStep(srcFuncs, k, m, pass.fset, pass.files);
      CheckFunc(pass, srcFuncs[k], spannerTypes);
    }
    assert srcFuncs[..|srcFuncs|] == srcFuncs;
  }

  /** deferOnlyAnalyzer: registers the Spanner types, then checks every source function unless none registered. */
  method DeferOnlyAnalyzer(pass: Pass, allPackages: seq<Package>, srcFuncs: seq<Option<Function>>)
    modifies pass`reports
    ensures pass.reports == old(pass.reports) + AnalyzerReports(allPackages, srcFuncs, pass.fset, pass.files)
  {
    var spannerTypes := RegisterSpannerTypes(allPackages);
    if |spannerTypes.entries| == 0 {
      return;
    }
    CheckFuncs(pass, srcFuncs, spannerTypes);
  }
}
