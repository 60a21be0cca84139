/** The struct-name locator of ast.go: `getStructName`, used when the command
    runs under `go generate` without a type name. `line` is the value of the
    GOLINE variable as strconv.Atoi reads it (0 when unset or malformed). */
module Locate {

  import opened Outcome
  import opened GoAst

  /** A declaration that ends the search: a general declaration whose first
      spec is a type spec on `line` or later, or one with no specs at all
      (indexing its first spec is a run-time fault). Only the first spec of a
      declaration is ever examined. */
  predicate Decisive(d: Decl, line: int) {
    d.GenDecl? && (|d.specs| == 0 || (d.specs[0].TypeSpec? && d.specs[0].line >= line))
  }

  /** How a decisive declaration ends the search. */
  function Decision(d: Decl, line: int): Result<string>
    requires Decisive(d, line)
  {
    if |d.specs| == 0 then Fail(IndexOutOfRange) else Ok(d.specs[0].name)
  }

  /** getStructName (ast.go:142-164): the name of the first type declared as
      the first spec of a general declaration at or after `line`; "" when the
      file does not parse or there is none. */
  method GetStructName(src: ParseOutcome, line: int) returns (r: Result<string>)
    ensures src.Malformed? ==> r == Ok("")
    ensures src.Parsed? && (forall j :: 0 <= j < |src.file.decls| ==> !Decisive(src.file.decls[j], line)) ==>
      r == Ok("")
    ensures src.Parsed? ==>
      forall j ::
        (0 <= j < |src.file.decls| && Decisive(src.file.decls[j], line) &&
         (forall i :: 0 <= i < j ==> !Decisive(src.file.decls[i], line)))
        ==> r == Decision(src.file.decls[j], line)
  {
    if src.Malformed? {
      return Ok("");
    }
    var decls := src.file.decls;
    for i := 0 to |decls|
      invariant forall j :: 0 <= j < i ==> !Decisive(decls[j], line)
    {
      var d := decls[i];
      if !d.GenDecl? {
        continue;
      }
      if |d.specs| == 0 {
        return Fail(IndexOutOfRange);
      }
      match d.specs[0]
      case TypeSpec(name, pos) =>
        if pos < line {
          continue;
        }
        return Ok(name);
      case _ =>
    }
    return Ok("");
  }
}
