/**
 * The exclusion and suppression rules of pkg/analyzer/defer_only.go:
 * generated files, file-level nolint directives in the first ten lines, and
 * nolint comments on a report's line or the line before it.
 */
module Suppression {
  import opened Wrappers
  import opened GoStrings
  import opened Frontend

  /** File-level directives are honoured only in comment groups starting at or before this line. */
  const FileLevelLimit: nat := 10

  /** The text names this check or all checks. */
  predicate IsToolDirective(text: string) {
    Contains(text, "nolint:spannerclosecheck") || Contains(text, "nolint:all")
  }

  /** A directive on or just above a line: a tool directive, or a bare `nolint` in a text without any colon. */
  predicate IsLineDirective(text: string) {
    IsToolDirective(text) || (Contains(text, "nolint") && !Contains(text, ":"))
  }

  // ---- positional suppression (hasNolintDirective) ----

  /** The group starts on `line` or on the line before, and one of its texts is a line directive. */
  predicate GroupSuppresses(cg: CommentGroup, line: nat) {
    (cg.line == line || cg.line == line - 1) &&
    exists t :: 0 <= t < |cg.texts| && IsLineDirective(cg.texts[t])
  }

  /** The parsed file `f` lies in `file` and one of its groups suppresses `line`. */
  predicate FileSuppresses(fset: FileSet, f: AstFile, file: FileId, line: nat) {
    fset.File(f.pos) == Some(file) &&
    exists g :: 0 <= g < |f.comments| && GroupSuppresses(f.comments[g], line)
  }

  /** A report at `pos` is suppressed; never when the position has no file. */
  predicate Suppressed(fset: FileSet, files: seq<AstFile>, pos: Pos) {
    fset.File(pos).Some? &&
    exists i :: 0 <= i < |files| && FileSuppresses(fset, files[i], pos.file, pos.line)
  }

  /** hasNolintDirective: scans the files, their comment groups and their texts, stopping at the first directive. */
  method HasNolintDirective(pass: Pass, pos: Pos) returns (b: bool)
    ensures b == Suppressed(pass.fset, pass.files, pos)
  {
    var file := pass.fset.File(pos);
    if file.None? {
      return false;
    }
    var line: int := pos.line;
    for i := 0 to |pass.files|
      invariant forall k :: 0 <= k < i ==> !FileSuppresses(pass.fset, pass.files[k], file.value, line)
    {
      var f := pass.files[i];
      if pass.fset.File(f.pos) != file {
        continue;
      }
      for j := 0 to |f.comments|
        invariant forall g :: 0 <= g < j ==> !GroupSuppresses(f.comments[g], line)
      {
        var cg := f.comments[j];
        var commentLine: int := cg.line;
        if commentLine == line || commentLine == line - 1 {
          for t := 0 to |cg.texts|
            invariant forall u :: 0 <= u < t ==> !IsLineDirective(cg.texts[u])
          {
            var text := cg.texts[t];
            if Contains(text, "nolint:spannerclosecheck") ||
               Contains(text, "nolint:all") ||
               (Contains(text, "nolint") && !Contains(text, ":")) {
              return true;
            }
          }
        }
      }
    }
    return false;
  }

  // ---- file-level suppression (hasFileLevelNolint) ----

  /** The scan of a file's groups reaches group `g`: no group up to it starts past the limit. */
  predicate Reached(cgs: seq<CommentGroup>, g: nat)
    requires g < |cgs|
  {
    forall k :: 0 <= k <= g ==> cgs[k].line <= FileLevelLimit
  }

  /** One of the group's texts is a tool directive. */
  predicate HasToolDirective(cg: CommentGroup) {
    exists t :: 0 <= t < |cg.texts| && IsToolDirective(cg.texts[t])
  }

  /** The parsed file `f` lies in `file` and a group the scan reaches holds a tool directive. */
  predicate FileOptsOut(fset: FileSet, f: AstFile, file: FileId) {
    fset.File(f.pos) == Some(file) &&
    exists g :: 0 <= g < |f.comments| && Reached(f.comments, g) && HasToolDirective(f.comments[g])
  }

  /** The file holding `pos` opts out of the check as a whole. */
  predicate FileLevelNolint(fset: FileSet, files: seq<AstFile>, pos: Pos) {
    fset.File(pos).Some? &&
    exists i :: 0 <= i < |files| && FileOptsOut(fset, files[i], pos.file)
  }

  /**
   * hasFileLevelNolint: scans each file's comment groups in order, leaving a
   * file at its first group past the limit.
   */
  method HasFileLevelNolint(pass: Pass, pos: Pos) returns (b: bool)
    ensures b == FileLevelNolint(pass.fset, pass.files, pos)
  {
    var file := pass.fset.File(pos);
    if file.None? {
      return false;
    }
    for i := 0 to |pass.files|
      invariant forall k :: 0 <= k < i ==> !FileOptsOut(pass.fset, pass.files[k], file.value)
    {
      var f := pass.files[i];
      if pass.fset.File(f.pos) != file {
        continue;
      }
      for j := 0 to |f.comments|
        invariant forall g :: 0 <= g < j ==> f.comments[g].line <= FileLevelLimit && !HasToolDirective(f.comments[g])
      {
        var cg := f.comments[j];
        var commentLine := cg.line;
        if commentLine > FileLevelLimit {
          break;
        }
        for t := 0 to |cg.texts|
          invariant forall u :: 0 <= u < t ==> !IsToolDirective(cg.texts[u])
        {
          var text := cg.texts[t];
          if Contains(text, "nolint:spannerclosecheck") || Contains(text, "nolint:all") {
            return true;
          }
        }
      }
    }
    return false;
  }

  // ---- generated files (isGeneratedFile) ----

  /** The file name marks generated code. */
  predicate IsGeneratedName(name: string) {
    HasSuffix(name, ".yo.go") || HasSuffix(name, ".pb.go") || HasSuffix(name, "_gen.go") ||
    Contains(name, "generated")
  }

  /** Functions at `pos` are skipped: their file is generated or opts out as a whole; never when there is no file. */
  predicate Generated(fset: FileSet, files: seq<AstFile>, pos: Pos) {
    fset.File(pos).Some? &&
    (IsGeneratedName(fset.names[pos.file]) || FileLevelNolint(fset, files, pos))
  }

  /** isGeneratedFile: the name tests first, then the file-level directive. */
  method IsGeneratedFile(pass: Pass, pos: Pos) returns (b: bool)
    ensures b == Generated(pass.fset, pass.files, pos)
  {
    var file := pass.fset.File(pos);
    if file.None? {
      return false;
    }
    var filename := pass.fset.names[file.value];
    if HasSuffix(filename, ".yo.go") {
      return true;
    }
    if HasSuffix(filename, ".pb.go") {
      return true;
    }
    if HasSuffix(filename, "_gen.go") {
      return true;
    }
    if Contains(filename, "generated") {
      return true;
    }
    b := HasFileLevelNolint(pass, pos);
  }

  // ---- properties ----

  /** A tool directive suppresses a report wherever a bare nolint would. */
  lemma ToolDirectiveIsLineDirective(text: string)
    requires IsToolDirective(text)
    ensures IsLineDirective(text)
  {
  }

  /**
   * Comments only suppress reports on their own line or the line after, and
   * only in their own file: groups of other files never count.
   */
  lemma SuppressionIsLocal(fset: FileSet, files: seq<AstFile>, pos: Pos)
    requires pos.Pos?
    requires forall i, g :: 0 <= i < |files| && fset.File(files[i].pos) == fset.File(pos) && 0 <= g < |files[i].comments| ==>
      files[i].comments[g].line != pos.line && files[i].comments[g].line != pos.line - 1
    ensures !Suppressed(fset, files, pos)
  {
  }

  /** Neither kind of directive applies to a position without a file. */
  lemma NoFileNoSuppression(fset: FileSet, files: seq<AstFile>, pos: Pos)
    requires fset.File(pos).None?
    ensures !Suppressed(fset, files, pos) && !FileLevelNolint(fset, files, pos) && !Generated(fset, files, pos)
  {
  }

  /**
   * When a file's groups are in line order, the scan reaches exactly the groups
   * starting at or before the limit.
   */
  lemma {:induction false} ReachedInSortedFile(cgs: seq<CommentGroup>, g: nat)
    requires g < |cgs|
    requires forall j, k :: 0 <= j < k < |cgs| ==> cgs[j].line <= cgs[k].line
    ensures Reached(cgs, g) <==> cgs[g].line <= FileLevelLimit
  {
    if cgs[g].line <= FileLevelLimit {
      forall k | 0 <= k <= g
        ensures cgs[k].line <= FileLevelLimit
      {
        if k < g {
          assert cgs[k].line <= cgs[g].line;
        }
      }
    }
  }

  /** A group past the limit hides every later group from the file-level scan, even one within the limit. */
  lemma {:induction false} ScanStopsAtFirstLateGroup(cgs: seq<CommentGroup>, late: nat, g: nat)
    requires late <= g < |cgs| && cgs[late].line > FileLevelLimit
    ensures !Reached(cgs, g)
  {
    assert !(cgs[late].line <= FileLevelLimit);
  }

  /**
   * A bare `//nolint` suppresses the report on its line or the next, but does
   * not opt the file out as a whole.
   */
  lemma BareNolintIsLineOnly()
    ensures IsLineDirective("//nolint") && !IsToolDirective("//nolint")
  {
    var text := "//nolint";
    assert text[2..] == "nolint";
    assert OccursAt(text, "nolint", 2);
    ContainsChar(text, ':');
  }

  /** Beside the tool directives, a text counts on a line exactly when it says `nolint` and has no colon. */
  lemma BareDirectiveIff(text: string)
    requires !IsToolDirective(text)
    ensures IsLineDirective(text) <==> Contains(text, "nolint") && ':' !in text
  {
    ContainsChar(text, ':');
  }

  /**
   * A directive at the end of line `line` also silences a report on the next
   * line: a trailing bare `//nolint` covers two lines, not just its own.
   */
  lemma {:induction false} TrailingDirectiveCoversNextLine(line: nat)
    ensures var fset := FileSet(map[0 := "a.go"]);
            var files := [AstFile(Pos(0, 1), [CommentGroup(line, ["//nolint"])])];
            Suppressed(fset, files, Pos(0, line)) && Suppressed(fset, files, Pos(0, line + 1))
  {
    var fset := FileSet(map[0 := "a.go"]);
    var cg := CommentGroup(line, ["//nolint"]);
    var files := [AstFile(Pos(0, 1), [cg])];
    BareNolintIsLineOnly();
    assert cg.texts[0] == "//nolint";
    assert GroupSuppresses(cg, line) && GroupSuppresses(cg, line + 1);
    assert files[0].comments[0] == cg;
    assert FileSuppresses(fset, files[0], 0, line) && FileSuppresses(fset, files[0], 0, line + 1);
  }
}
