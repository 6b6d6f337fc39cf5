/**
 * Scenarios from the repository's test fixtures (pkg/analyzer/testdata/src/a),
 * written as SSA functions by hand, with the model's reports on them proved.
 */
module Fixtures {
  import opened Wrappers
  import opened GoStrings
  import opened Frontend
  import opened Registry
  import opened Coverage
  import opened Suppression
  import opened Scanner

  /** The mock Spanner package: the three resource types plus Client and ReadWriteTransaction. */
  const Spanner: Package := Package(SpannerPath, map[
    "ReadOnlyTransaction" := Named(1),
    "BatchReadOnlyTransaction" := Named(2),
    "RowIterator" := Named(3),
    "Client" := Named(4),
    "ReadWriteTransaction" := Named(5)
  ])

  const Prog: seq<Package> := [Package("context", map[]), Spanner]

  /** One fixture file, file id 0, with no comments. */
  const Fset: FileSet := FileSet(map[0 := "a.go"])
  const Plain: seq<AstFile> := [AstFile(Pos(0, 1), [])]

  function At(line: nat): Pos { Pos(0, line) }

  const DeferUse: Instr := Instr(100, Defer, OtherType, NoPos, None)

  /** `txn := client.ReadOnlyTransaction()` at `line`, used by the given referrers. */
  function Txn(id: ValueId, line: nat, refs: seq<Instr>): Instr {
    Instr(id, Call(None, Some("ReadOnlyTransaction")), Pointer(Named(1)), At(line), Some(refs))
  }

  /** `iter := txn.Query(...)` at `line`, used by the given referrers. */
  function Iter(id: ValueId, line: nat, refs: seq<Instr>): Instr {
    Instr(id, Call(None, Some("Query")), Pointer(Named(3)), At(line), Some(refs))
  }

  /** goodDefer (a.go:9-16): both values have a deferred cleanup. */
  const GoodDefer: Function := Function(At(9), [[Txn(1, 11, [DeferUse]), Iter(2, 14, [DeferUse])]])

  /** badNoDefer (a.go:18-24): the transaction is only queried and the iterator is unused. */
  const BadNoDefer: Function := Function(At(18), [[Txn(1, 20, [Iter(2, 22, [])]), Iter(2, 22, [])]])

  /** badBatchReadOnlyTransaction (a.go:45-53): the transaction comes out of a (txn, err) tuple and is never closed. */
  const BadBatch: Function := Function(At(45), [[
    Instr(1, Call(None, Some("BatchReadOnlyTransaction")), OtherType, At(47), Some([])),
    Instr(2, Extract(Some(At(47))), Pointer(Named(2)), NoPos, Some([]))
  ]])

  /** goodSingleInline (readonly_transaction_test.go:31-35): the Single transaction is exempt, the iterator deferred. */
  const GoodSingle: Function := Function(At(31), [[
    Instr(1, Call(None, Some("Single")), Pointer(Named(1)), At(33), Some([Iter(2, 33, [DeferUse])])),
    Iter(2, 33, [DeferUse])
  ]])

  /** The registry built from Prog: the three resource types, and not Client. */
  const Reg: map<TypeId, string> := map[1 := ReadOnlyTransaction, 2 := BatchReadOnlyTransaction, 3 := RowIterator]

  lemma RegistryOfProg()
    ensures SpannerRegistry(Prog) == Reg
  {
    assert Prog[0].path != SpannerPath by {
      assert Prog[0].path[1] != SpannerPath[1];
    }
    assert Prog[1..] == [Spanner];
    assert FirstSpannerPackage(Prog) == Some(Spanner);
    assert Resolves(Spanner, ReadOnlyTransaction) && Spanner.scope[ReadOnlyTransaction] == Named(1);
    assert Resolves(Spanner, BatchReadOnlyTransaction) && Spanner.scope[BatchReadOnlyTransaction] == Named(2);
    assert Resolves(Spanner, RowIterator) && Spanner.scope[RowIterator] == Named(3);
  }

  /** A run over the one function `f` of a file the scan does not skip is the scan of its blocks. */
  lemma RunOfOne(f: Function, files: seq<AstFile>)
    requires !Generated(Fset, files, f.pos)
    ensures AnalyzerReports(Prog, [Some(f)], Fset, files) == BlocksReports(f.blocks, Reg, Fset, files)
  {
    RegistryOfProg();
    assert [Some(f)][..0] == [];
    assert FuncsReports([Some(f)], Reg, Fset, files) == FuncReports(Some(f), Reg, Fset, files);
  }

  /** The fixture file is neither generated nor opted out when it has no comments. */
  lemma PlainNotGenerated(pos: Pos)
    ensures !Generated(Fset, Plain, pos)
  {
    assert !Contains("a.go", "generated");
  }

  /** The scan of one block of two instructions. */
  lemma OneBlockOfTwo(x: Instr, y: Instr, files: seq<AstFile>)
    ensures BlocksReports([[x, y]], Reg, Fset, files) ==
      AsSeq(InstrReport(x, Reg, Fset, files)) + AsSeq(InstrReport(y, Reg, Fset, files))
  {
    assert [[x, y]][..0] == [];
    assert [x, y][..1] == [x];
    assert [x][..0] == [];
    assert InstrsReports([x], Reg, Fset, files) == AsSeq(InstrReport(x, Reg, Fset, files));
    assert InstrsReports([x, y], Reg, Fset, files) ==
      AsSeq(InstrReport(x, Reg, Fset, files)) + AsSeq(InstrReport(y, Reg, Fset, files));
  }

  /** A value deferred directly is never reported. */
  lemma DeferredQuiet(val: Instr, files: seq<AstFile>)
    requires val.referrers == Some([DeferUse])
    ensures InstrReport(val, Reg, Fset, files).None?
  {
    assert CoversValue(val.referrers.value[0]);
  }

  /** Nothing is suppressed in a file without comments. */
  lemma PlainNotSuppressed(pos: Pos)
    ensures !Suppressed(Fset, Plain, pos)
  {
  }

  /** A value with no use at all is not covered and does not escape. */
  lemma UnusedUncovered(val: Instr)
    requires val.referrers == Some([])
    ensures !Covered(val) && !Escapes(val)
  {
  }

  /** A transaction whose only use is a Query call is not covered. */
  lemma QueriedUncovered(id: ValueId, line: nat, iter: Instr)
    requires iter.kind == Call(None, Some("Query"))
    ensures !Covered(Txn(id, line, [iter]))
  {
    var x := Txn(id, line, [iter]);
    assert !CoversValue(iter);
    assert x.referrers.value == [iter];
  }

  lemma BadNoDeferTxn(files: seq<AstFile>)
    requires !Suppressed(Fset, files, At(20))
    ensures InstrReport(Txn(1, 20, [Iter(2, 22, [])]), Reg, Fset, files) ==
      Some(Diagnostic(At(20), ReportMessage(ReadOnlyTransaction)))
  {
    QueriedUncovered(1, 20, Iter(2, 22, []));
  }

  lemma BadNoDeferIter(files: seq<AstFile>)
    requires !Suppressed(Fset, files, At(22))
    ensures InstrReport(Iter(2, 22, []), Reg, Fset, files) == Some(Diagnostic(At(22), ReportMessage(RowIterator)))
  {
    UnusedUncovered(Iter(2, 22, []));
  }

  lemma GoodDeferReportsNothing()
    ensures AnalyzerReports(Prog, [Some(GoodDefer)], Fset, Plain) == []
  {
    PlainNotGenerated(GoodDefer.pos);
    RunOfOne(GoodDefer, Plain);
    var x, y := Txn(1, 11, [DeferUse]), Iter(2, 14, [DeferUse]);
    DeferredQuiet(x, Plain);
    DeferredQuiet(y, Plain);
    OneBlockOfTwo(x, y, Plain);
  }

  /** Both values are reported; the iterator's message says Close, as a.go:22 expects. */
  lemma BadNoDeferReportsBoth()
    ensures AnalyzerReports(Prog, [Some(BadNoDefer)], Fset, Plain) ==
      [Diagnostic(At(20), ReportMessage(ReadOnlyTransaction)), Diagnostic(At(22), ReportMessage(RowIterator))]
  {
    PlainNotGenerated(BadNoDefer.pos);
    RunOfOne(BadNoDefer, Plain);
    PlainNotSuppressed(At(20));
    PlainNotSuppressed(At(22));
    BadNoDeferTxn(Plain);
    BadNoDeferIter(Plain);
    OneBlockOfTwo(Txn(1, 20, [Iter(2, 22, [])]), Iter(2, 22, []), Plain);
  }

  lemma BadBatchExtract()
    ensures InstrReport(Instr(2, Extract(Some(At(47))), Pointer(Named(2)), NoPos, Some([])), Reg, Fset, Plain) ==
      Some(Diagnostic(At(47), ReportMessage(BatchReadOnlyTransaction)))
  {
    UnusedUncovered(Instr(2, Extract(Some(At(47))), Pointer(Named(2)), NoPos, Some([])));
    PlainNotSuppressed(At(47));
  }

  /** A value whose type is not a Spanner type is never reported: here the (txn, err) tuple. */
  lemma NotAResource(val: Instr, files: seq<AstFile>)
    requires val.typ == OtherType
    ensures InstrReport(val, Reg, Fset, files).None?
  {
  }

  /** The extracted transaction is reported at the line of the call, as a.go:47 expects. */
  lemma BadBatchReportedAtCall()
    ensures AnalyzerReports(Prog, [Some(BadBatch)], Fset, Plain) ==
      [Diagnostic(At(47), ReportMessage(BatchReadOnlyTransaction))]
  {
    PlainNotGenerated(BadBatch.pos);
    RunOfOne(BadBatch, Plain);
    var x := Instr(1, Call(None, Some("BatchReadOnlyTransaction")), OtherType, At(47), Some([]));
    var y := Instr(2, Extract(Some(At(47))), Pointer(Named(2)), NoPos, Some([]));
    NotAResource(x, Plain);
    BadBatchExtract();
    OneBlockOfTwo(x, y, Plain);
  }

  lemma SingleTxnExempt()
    ensures InstrReport(Instr(1, Call(None, Some("Single")), Pointer(Named(1)), At(33), Some([Iter(2, 33, [DeferUse])])),
                        Reg, Fset, Plain).None?
  {
  }

  lemma GoodSingleReportsNothing()
    ensures AnalyzerReports(Prog, [Some(GoodSingle)], Fset, Plain) == []
  {
    PlainNotGenerated(GoodSingle.pos);
    RunOfOne(GoodSingle, Plain);
    var y := Iter(2, 33, [DeferUse]);
    var x := Instr(1, Call(None, Some("Single")), Pointer(Named(1)), At(33), Some([y]));
    SingleTxnExempt();
    DeferredQuiet(y, Plain);
    OneBlockOfTwo(x, y, Plain);
  }

  /**
   * goodNolintSpannerclosecheck (nolint_test.go:11-18) is the code of
   * badNoDefer with a `//nolint:spannerclosecheck` comment on each reported
   * line. The fixture reuses badNoDefer at its a.go lines (20 and 22, where
   * nolint_test.go has 13 and 16); only the line numbers are shifted.
   */
  const NolintFiles: seq<AstFile> :=
    [AstFile(Pos(0, 1), [CommentGroup(20, ["//nolint:spannerclosecheck"]), CommentGroup(22, ["//nolint:spannerclosecheck"])])]

  lemma NolintTextIsDirective()
    ensures IsLineDirective("//nolint:spannerclosecheck")
  {
    var text := "//nolint:spannerclosecheck";
    assert text[2..] == "nolint:spannerclosecheck";
    assert OccursAt(text, "nolint:spannerclosecheck", 2);
  }

  lemma NolintLinesSuppressed()
    ensures Suppressed(Fset, NolintFiles, At(20)) && Suppressed(Fset, NolintFiles, At(22))
  {
    NolintTextIsDirective();
    var comments := NolintFiles[0].comments;
    assert comments[0].texts[0] == "//nolint:spannerclosecheck";
    assert comments[1].texts[0] == "//nolint:spannerclosecheck";
    assert GroupSuppresses(comments[0], 20);
    assert GroupSuppresses(comments[1], 22);
    assert FileSuppresses(Fset, NolintFiles[0], 0, 20) && FileSuppresses(Fset, NolintFiles[0], 0, 22);
  }

  /** The groups start past line 10, so the file as a whole is still checked. */
  lemma NolintFileNotSkipped()
    ensures !Generated(Fset, NolintFiles, BadNoDefer.pos)
  {
    var comments := NolintFiles[0].comments;
    assert !Reached(comments, 0) by {
      assert comments[0].line > FileLevelLimit;
    }
    assert !Reached(comments, 1) by {
      assert comments[0].line > FileLevelLimit;
    }
    assert !FileOptsOut(Fset, NolintFiles[0], 0);
    assert !Contains("a.go", "generated");
  }

  /** goodNolintSpannerclosecheck (nolint_test.go:11-18): the code of badNoDefer with a directive on each line reports nothing. */
  lemma NolintSuppressesBoth()
    ensures AnalyzerReports(Prog, [Some(BadNoDefer)], Fset, NolintFiles) == []
  {
    NolintFileNotSkipped();
    RunOfOne(BadNoDefer, NolintFiles);
    var y := Iter(2, 22, []);
    var x := Txn(1, 20, [y]);
    NolintLinesSuppressed();
    SuppressedQuiet(x, NolintFiles);
    SuppressedQuiet(y, NolintFiles);
    OneBlockOfTwo(x, y, NolintFiles);
  }

  /** A value reported at its own position, where a directive suppresses reports, yields nothing. */
  lemma SuppressedQuiet(val: Instr, files: seq<AstFile>)
    requires !val.kind.Extract? && Suppressed(Fset, files, val.pos)
    ensures InstrReport(val, Reg, Fset, files).None?
  {
  }

  /** Neither message of badNoDefer is the text row_iterator_test.go:24 expects. */
  lemma NeitherMessageSaysStop()
    ensures ReportMessage(ReadOnlyTransaction) != "RowIterator.Stop() must be deferred"
    ensures ReportMessage(RowIterator) != "RowIterator.Stop() must be deferred"
  {
    var expected := "RowIterator.Stop() must be deferred";
    assert expected[12] == 'S';
    assert ReportMessage(ReadOnlyTransaction)[12] == 's';
    assert ReportMessage(RowIterator)[12] == 'C';
  }

  /**
   * badRowIteratorNoDefer (row_iterator_test.go:20-26) is the code of
   * badNoDefer shifted by two lines (22 and 24 instead of 20 and 22), and its
   * fixture expects `RowIterator.Stop() must be deferred` on the iterator. No
   * report of badNoDefer carries that text; the shift changes only positions.
   */
  lemma RowIteratorFixtureMismatch(d: Diagnostic)
    requires d in AnalyzerReports(Prog, [Some(BadNoDefer)], Fset, Plain)
    ensures d.message != "RowIterator.Stop() must be deferred"
  {
    BadNoDeferReportsBoth();
    NeitherMessageSaysStop();
  }
}
