# spannerclosecheck, modelled in Dafny

spannerclosecheck is a Go static-analysis pass. It reports Cloud Spanner
resources that are opened but not released with `defer`. There are three
such resources: `ReadOnlyTransaction`, `BatchReadOnlyTransaction` and
`RowIterator`. The pass works on the SSA form of each source function:

- Every instruction that produces a value of one of the three types (or a
  pointer to one) is a candidate.
- A candidate is covered when one of its referrers is a `Defer`. It is also
  covered when a referrer is an interface-method call named `Close` or `Stop` that a `Defer`
  in turn refers to.
- Two candidates are exempt:
  - a read-only transaction produced by a call named `Single`;
  - a row iterator that a `Return` hands back to the caller.
- An uncovered, non-exempt candidate is reported as
  `<Type>.Close() must be deferred`. The report goes at the position of the
  value, or at the tuple call when the value is extracted from a tuple.
- A report is dropped when a `nolint` comment sits on its line or the line
  before. So a directive at the end of line L also silences a report on line
  L+1, not only the one it was written for.
- A whole function is skipped when its file is generated or carries a
  file-level `nolint` directive in its first ten lines. A file counts as
  generated when its name ends in `.yo.go`, `.pb.go` or `_gen.go`, or
  contains `generated`.

This project models that core: `pkg/analyzer/defer_only.go` and the resource
descriptors of `pkg/analyzer/error.go`. The modules are:

- `Frontend`: the SSA instructions, types, positions, files and the analysis pass, reduced to what the check reads.
- `Registry`: building the table of registered Spanner types (registerType) and looking a type up in it (getSpannerType).
- `Coverage`: hasDeferredClose, isFromSingle and isReturnedFromFunction.
- `Suppression`: isGeneratedFile, hasFileLevelNolint and hasNolintDirective.
- `Scanner`: checkFunc and deferOnlyAnalyzer. Each is a method whose new
  report list is tied to a specification function (`InstrReport` …
  `AnalyzerReports`).
- `ScanProperties`: what the scan promises, stated over those specification functions.
- `ResourceTypes`: the `ResourceType` descriptor, `CloseMessage`, the
  `spannerResourceTypes` table, and a parser proving that `CloseMessage` is invertible.
- `GoStrings`: `strings.Contains` and `strings.HasSuffix`.
- `Fixtures`: cases from `pkg/analyzer/testdata/src/a`, built by hand, with the model's reports on them proved.

The scanner and the descriptor table disagree on one message. The scanner
always formats `.Close()` (defer_only.go:89), but the table gives `Stop` as
the cleanup method of `RowIterator` (error.go:17). The fixtures disagree
with each other on it too: a.go:22 expects `RowIterator.Close()`, while
row_iterator_test.go:24 expects `RowIterator.Stop()` for the same code. The
model follows the code. It proves that the scanner's message matches the
table for the two transactions, that it differs for the row iterator, and
that no report of the badNoDefer run has the text row_iterator_test.go:24
expects.

Other places where the code differs from the package's own description:

- hasDeferredClose accepts a deferred `Close` or `Stop` for every type. It
  does not match the method to the resource. `Coverage.DeferredStopCoversAnything`
  states this.
- doc.go:14 lists `Client` as a checked resource. Only the three types above
  are registered (defer_only.go:22-24). `ScanProperties.RunMessages` states this.

## Model

| member | source | states |
|---|---|---|
| ResourceTypes.ParseCloseMessageRoundTrip | pkg/analyzer/error.go:5-12 | A descriptor's message reads back as that descriptor when its name has no dot: name, dot, method and the fixed tail can be recovered |
| ResourceTypes.CloseMessageInjective | pkg/analyzer/error.go:10-12 | Distinct descriptors give distinct messages |
| ResourceTypes.TableKeys | pkg/analyzer/error.go:14-18 | The table holds exactly ReadOnlyTransaction, BatchReadOnlyTransaction and RowIterator |
| ResourceTypes.TableNamesMatchKeys | pkg/analyzer/error.go:14-18 | Every entry is filed under its own name, and no name contains a dot |
| ResourceTypes.TableCloseMethods | pkg/analyzer/error.go:15-17 | The transactions are released by Close, the row iterator by Stop |
| GoStrings.Contains | pkg/analyzer/defer_only.go:246-247 | strings.Contains is true exactly when the substring occurs at some index |
| Frontend.Pass.Reportf | pkg/analyzer/defer_only.go:89 | A report appends exactly one diagnostic with the given position and message and keeps the earlier ones |
| Registry.TypeMap.constructor | pkg/analyzer/defer_only.go:17 | The type map starts empty |
| Registry.RegisterType | pkg/analyzer/defer_only.go:41-48 | Registering a name records its named type under that name when the package scope declares it with a named type, and leaves the map unchanged otherwise |
| Registry.RegisterAll | pkg/analyzer/defer_only.go:22-24 | After the three registrations every entry is one of the three names, filed under the id its scope gives it; every name that resolves is present; the map is empty iff none resolves |
| Registry.FirstSpannerPackage | pkg/analyzer/defer_only.go:20-27 | The package registered from is an element with the Spanner import path; there is none iff no package has that path |
| Registry.FirstSpannerPackageIsFirst | pkg/analyzer/defer_only.go:20-27 | Registration uses the first package with the Spanner path, whatever follows it |
| Registry.RegistryNames | pkg/analyzer/defer_only.go:20-27 | Whatever packages are loaded, only the three resource names are ever registered |
| Registry.RegistryEmptyIff | pkg/analyzer/defer_only.go:20-31 | The registry is empty exactly when no package has the Spanner path or none of the three names resolves in the first one that does |
| Registry.GetSpannerType | pkg/analyzer/defer_only.go:132-146 | A named type or a pointer to one that is registered yields its registered name; a non-empty result always comes from such a type |
| Registry.OnlyOnePointerStripped | pkg/analyzer/defer_only.go:133-136 | A pointer to a pointer is never a resource type |
| Registry.NamedTypesNotConflated | pkg/analyzer/defer_only.go:139-143 | Named types are looked up by identity: an unregistered one yields "" and a registered one yields its name, with or without a pointer |
| Coverage.HasDeferredClose | pkg/analyzer/defer_only.go:99-130 | The scan answers true exactly when some referrer is a Defer, or an interface-method call named Close or Stop that a Defer refers to |
| Coverage.IsReturnedFromFunction | pkg/analyzer/defer_only.go:170-188 | The scan answers true exactly when some referrer is a Return listing the value among its results |
| Coverage.NilReferrers | pkg/analyzer/defer_only.go:100-102 | A value without referrers is neither covered nor returned |
| Coverage.UndeferredCleanupIsNotCoverage | pkg/analyzer/defer_only.go:111-126 | Calls that no Defer refers to, Close and Stop included, do not cover a value |
| Coverage.DeferredStopCoversAnything | pkg/analyzer/defer_only.go:115 | A deferred Stop covers any resource: the cleanup name is not matched to the type |
| Suppression.HasNolintDirective | pkg/analyzer/defer_only.go:258-296 | The scan answers true exactly when the position has a file and some parsed file of that file has a comment group on the line or the line before with a nolint:spannerclosecheck, nolint:all or colon-free nolint text |
| Suppression.HasFileLevelNolint | pkg/analyzer/defer_only.go:222-255 | The scan answers true exactly when the position has a file and a comment group reached before the first group past line 10 holds nolint:spannerclosecheck or nolint:all |
| Suppression.IsGeneratedFile | pkg/analyzer/defer_only.go:191-219 | The scan answers true exactly when the position has a file whose name ends in .yo.go, .pb.go or _gen.go or contains "generated", or which opts out at file level |
| Suppression.ToolDirectiveIsLineDirective | pkg/analyzer/defer_only.go:285-287 | A tool directive suppresses on a line wherever a bare nolint would |
| Suppression.SuppressionIsLocal | pkg/analyzer/defer_only.go:269-280 | Comments of the report's own file on neither its line nor the line before never suppress it, and comments of other files never do |
| Suppression.TrailingDirectiveCoversNextLine | pkg/analyzer/defer_only.go:280 | A bare //nolint at the end of line L silences reports on both L and L+1, not only the one it targets |
| Suppression.NoFileNoSuppression | pkg/analyzer/defer_only.go:192-195 | A position without a file is neither suppressed, nor opted out, nor generated |
| Suppression.ReachedInSortedFile | pkg/analyzer/defer_only.go:236-241 | With groups in line order, the file-level scan reaches exactly the groups starting at or before line 10 |
| Suppression.ScanStopsAtFirstLateGroup | pkg/analyzer/defer_only.go:238-241 | A group past line 10 hides every later group from the file-level scan |
| Suppression.BareNolintIsLineOnly | pkg/analyzer/defer_only.go:246-247 | A bare //nolint suppresses on a line but does not opt a file out |
| Suppression.BareDirectiveIff | pkg/analyzer/defer_only.go:285-287 | Apart from the tool directives, a text suppresses exactly when it contains nolint and no colon |
| Scanner.CheckInstr | pkg/analyzer/defer_only.go:63-91 | One step of the instruction loop appends exactly the instruction's report, or nothing when it is not a resource, is exempt, covered or suppressed |
| Scanner.CheckBlock | pkg/analyzer/defer_only.go:62-94 | The instruction loop appends exactly the reports of the block's instructions, in order |
| Scanner.CheckBlocks | pkg/analyzer/defer_only.go:61-95 | The block loop appends exactly the reports of every block, in order |
| Scanner.CheckFunc | pkg/analyzer/defer_only.go:50-96 | checkFunc appends exactly the reports of the function, in block and instruction order, and nothing for a nil or skipped function |
| Scanner.RegisterSpannerTypes | pkg/analyzer/defer_only.go:16-27 | The registration loop yields a fresh map equal to the registry of the first Spanner package |
| Scanner.CheckFuncs | pkg/analyzer/defer_only.go:33-36 | The loop over source functions appends exactly the reports of every function, in order |
| Scanner.DeferOnlyAnalyzer | pkg/analyzer/defer_only.go:13-39 | A run appends exactly the reports of all source functions in order, and none when the registry is empty |
| ScanProperties.InstrReportedIff | pkg/analyzer/defer_only.go:63-91 | A value is reported iff it has a registered type, is not exempt, is not covered and is not suppressed; the report carries the type's message at the report position |
| ScanProperties.SingleNeverReported | pkg/analyzer/defer_only.go:149-167 | A read-only transaction produced by Single is never reported |
| ScanProperties.SingleExemptionIsTypeSpecific | pkg/analyzer/defer_only.go:68 | A batch transaction produced by a Single call, through an interface method or a called value, is still reported |
| ScanProperties.ExtractedTransactionNeverExempt | pkg/analyzer/defer_only.go:151-165 | A read-only transaction taken out of a tuple is never exempt, even when the tuple comes from a Single call: uncovered and unsuppressed, it is reported at the tuple call |
| ScanProperties.ReturnedIteratorNeverReported | pkg/analyzer/defer_only.go:72-75 | A row iterator that a Return lists is never reported |
| ScanProperties.ReturnExemptionIsTypeSpecific | pkg/analyzer/defer_only.go:73 | A returned, uncovered read-only transaction is still reported |
| ScanProperties.DeferredValueNeverReported | pkg/analyzer/defer_only.go:104-109 | A value used directly by a Defer is never reported |
| ScanProperties.UndeferredCloseIsReported | pkg/analyzer/testdata/src/a/readonly_transaction_test.go:25-28 | A resource produced by a call other than Single whose only uses are undeferred calls, Close or Stop included, is reported like an unclosed one; transactions and iterators alike |
| ScanProperties.ExtractReportedAtTupleCall | pkg/analyzer/defer_only.go:79-85 | An extracted value is reported at the tuple call's position |
| ScanProperties.InstrsReportsMembers | pkg/analyzer/defer_only.go:62-94 | The reports of a block are exactly the reports of its instructions |
| ScanProperties.InstrsReportsCount | pkg/analyzer/defer_only.go:62-94 | A block yields as many reports as it has reported instructions: none is reported twice |
| ScanProperties.BlocksReportsMembers | pkg/analyzer/defer_only.go:61-95 | The reports of a function's blocks are exactly the reports of their instructions |
| ScanProperties.GeneratedFunctionSkipped | pkg/analyzer/defer_only.go:55-58 | A function in a generated or opted-out file yields no reports |
| ScanProperties.FuncReportMessages | pkg/analyzer/defer_only.go:89 | Every report of a function says `<Name>.Close() must be deferred` for a registered name |
| ScanProperties.FuncsReportsMembers | pkg/analyzer/defer_only.go:34-36 | The reports of a run are exactly the reports of its functions |
| ScanProperties.NoSpannerTypesNoReports | pkg/analyzer/defer_only.go:29-31 | Without the Spanner package, or with none of the three types in it, a run reports nothing |
| ScanProperties.RunMessages | pkg/analyzer/doc.go:9-16 | Every report of a run names ReadOnlyTransaction, BatchReadOnlyTransaction or RowIterator; Client never appears |
| ScanProperties.ReportMessageIsCloseDescriptor | pkg/analyzer/defer_only.go:89 | The scanner's message is the message of a descriptor whose cleanup method is Close |
| ScanProperties.TransactionMessagesAgree | pkg/analyzer/error.go:15-16 | For both transactions the scanner's message is the table's message |
| ScanProperties.RowIteratorMessageDiverges | pkg/analyzer/error.go:17 | For the row iterator the scanner's message differs from the table's message |
| Fixtures.GoodDeferReportsNothing | pkg/analyzer/testdata/src/a/a.go:9-16 | goodDefer: a deferred Close and a deferred Stop give no report |
| Fixtures.BadNoDeferReportsBoth | pkg/analyzer/testdata/src/a/a.go:18-24 | badNoDefer: both the transaction (line 20) and the iterator (line 22) are reported, the iterator as RowIterator.Close() |
| Fixtures.BadBatchReportedAtCall | pkg/analyzer/testdata/src/a/a.go:45-53 | badBatchReadOnlyTransaction: the extracted transaction is reported once, at the call on line 47 |
| Fixtures.GoodSingleReportsNothing | pkg/analyzer/testdata/src/a/readonly_transaction_test.go:31-35 | goodSingleInline: the Single transaction is exempt and the deferred iterator is covered |
| Fixtures.NolintSuppressesBoth | pkg/analyzer/testdata/src/a/nolint_test.go:11-18 | goodNolintSpannerclosecheck: a directive on each reported line silences both reports, and the file is not skipped |
| Fixtures.RowIteratorFixtureMismatch | pkg/analyzer/testdata/src/a/row_iterator_test.go:20-26 | No report of the badNoDefer code carries the RowIterator.Stop() text this fixture expects |

## Left out

- main.go, version.go, example/main.go and analyzer.go (the analyzer's
  registration with the go/analysis framework and its flags) are not part of
  this model.
- Building the SSA form, the type checker's objects and the token positions
  is left out. The model takes them as input:
  - instructions carry their kind, type, resolved position and referrers
    (unfolded as a tree, because the check reads at most two levels of it);
  - `FileSet` maps file ids to names;
  - comment groups carry their start line.
- `Pass.Reportf` receives the message already formatted; fmt formatting is
  not modelled.
- The packages of the program come as a sequence in the order
  `AllPackages()` lists them; the model registers from the first one with the
  Spanner path, as the loop's `break` does.
- The loops of deferOnlyAnalyzer and checkFunc are written as separate
  methods: Scanner.RegisterSpannerTypes, Scanner.CheckFuncs, Scanner.CheckBlocks,
  Scanner.CheckBlock and Scanner.CheckInstr (the loop body, where the source's `continue` becomes
  `return`). The order of the tests and of the reports is unchanged; the split
  keeps each proof small.
- Coverage.IsReturnedFromFunction: takes the function as the source does but,
  like the source, does not consult it.
- Identity comparisons (`*types.Named`, `*token.File`, `ssa.Value`) are
  modelled by integer ids; aliasing between SSA values beyond those ids is
  not modelled.
- GoStrings.Contains, GoStrings.HasSuffix: Go's `strings` functions compare
  bytes, the model compares characters. For the ASCII needles the check uses
  and file names and comments that are valid UTF-8 the two agree.
