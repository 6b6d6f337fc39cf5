/**
 * The parts of the Go front end the check reads: SSA instructions with their
 * def-use edges (golang.org/x/tools/go/ssa), the types they carry (go/types),
 * positions already resolved by the token.FileSet, the parsed files' comment
 * groups, and the analysis pass that collects diagnostics. These are inputs
 * here; how they are built is not part of the model.
 */
module Frontend {
  import opened Wrappers

  /** Identity of a `*types.Named`: two named types are the same only if their ids are. */
  type TypeId = nat
  /** Identity of an SSA value, as compared by `==` in Go. */
  type ValueId = nat
  /** Identity of a `*token.File`. */
  type FileId = nat

  /** A static type, stripped down to what the check distinguishes. */
  datatype Type =
    | Pointer(elem: Type)
    | Named(id: TypeId)
    | OtherType

  /** A token.Pos as the FileSet resolves it: no position, or a line of a file. */
  datatype Pos = NoPos | Pos(file: FileId, line: nat)

  /** The instruction kinds the check tells apart. */
  datatype Kind =
    /** `*ssa.Call`: the interface method's name when it is an invoke, the called value's name when there is one */
    | Call(methodName: Option<string>, callee: Option<string>)
    /** `*ssa.Extract`: the position of the tuple-producing call, None when the tuple is nil */
    | Extract(tuple: Option<Pos>)
    /** `*ssa.Defer` */
    | Defer
    /** `*ssa.Return` with the identities of its result values */
    | Return(results: seq<ValueId>)
    /** any other instruction that produces a value */
    | OtherValue
    /** any other instruction that produces no value (store, jump, ...) */
    | OtherInstr

  /**
   * An instruction with, when it is a value, its identity, type, position and
   * referrers (None when Go's Referrers() is nil). A referrer carries its own
   * referrers, so the finite depth the check walks is all here.
   */
  datatype Instr = Instr(id: ValueId, kind: Kind, typ: Type, pos: Pos, referrers: Option<seq<Instr>>) {
    /** The instruction implements ssa.Value. */
    predicate IsValue() {
      !(kind.Defer? || kind.Return? || kind.OtherInstr?)
    }
  }

  /** An SSA function: its declaration position and its basic blocks' instructions. */
  datatype Function = Function(pos: Pos, blocks: seq<seq<Instr>>)

  /** A loaded package: its import path and the types of the objects its scope declares. */
  datatype Package = Package(path: string, scope: map<string, Type>)

  /** A comment group: the line it starts on and the text of each comment. */
  datatype CommentGroup = CommentGroup(line: nat, texts: seq<string>)

  /** A parsed file: the position of its package clause and its comment groups in source order. */
  datatype AstFile = AstFile(pos: Pos, comments: seq<CommentGroup>)

  /** The token.FileSet: the name of each file it knows. */
  datatype FileSet = FileSet(names: map<FileId, string>) {
    /** The file a position lies in; None for NoPos or a file the set does not know. */
    function File(pos: Pos): (f: Option<FileId>)
      ensures f.Some? <==> pos.Pos? && pos.file in names
      ensures f.Some? ==> f.value == pos.file
    {
      if pos.Pos? && pos.file in names then Some(pos.file) else None
    }
  }

  /** A reported diagnostic. */
  datatype Diagnostic = Diagnostic(pos: Pos, message: string)

  /** The analysis pass: the file set and files it was given, and the diagnostics reported so far. */
  class Pass {
    const fset: FileSet
    const files: seq<AstFile>
    var reports: seq<Diagnostic>

    constructor (fset: FileSet, files: seq<AstFile>)
      ensures this.fset == fset && this.files == files && reports == []
    {
      this.fset := fset;
      this.files := files;
      reports := [];
    }

    /** pass.Reportf with the message already formatted: appends one diagnostic. */
    method Reportf(pos: Pos, message: string)
      modifies this`reports
      ensures reports == old(reports) + [Diagnostic(pos, message)]
    {
      reports := reports + [Diagnostic(pos, message)];
    }
  }
}
