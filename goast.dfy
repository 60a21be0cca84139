/** The part of Go's syntax tree (package go/ast) that the generator reads.

    The tree is what go/parser produces from one source file; the parser itself
    is not part of this model, so a file arrives either as a parsed `File` or as
    the parser's failure (`ParseOutcome`). */
module GoAst {

  import opened Outcome

  /** A type expression. `OtherExpr` stands for every node kind the renderer does
      not handle (function and channel types, struct and interface literals,
      `...T`, generic instantiations); `kind` is its Go type name, such as
      "*ast.FuncType". `ArrayType.len` is the length expression of `[N]T`, absent
      for a slice `[]T`. */
  datatype Expr =
    | Ident(name: string)
    | SelectorExpr(x: Expr, sel: string)
    | StarExpr(x: Expr)
    | ArrayType(len: Option<string>, elt: Expr)
    | MapType(key: Expr, value: Expr)
    | OtherExpr(kind: string)

  /** One entry of a parameter, result, receiver or type-parameter list:
      `a, b int` has two names, an unnamed result `error` none. */
  datatype Field = Field(names: seq<string>, typ: Expr)

  datatype FieldList = FieldList(list: seq<Field>)

  /** A nil *ast.FieldList is `None`. */
  datatype FuncType = FuncType(typeParams: Option<FieldList>, params: Option<FieldList>, results: Option<FieldList>)

  /** The texts of the comments of a doc group, each as written (with its `//`). */
  datatype CommentGroup = CommentGroup(list: seq<string>)

  /** A specification inside a general declaration; a type spec records the line
      of its name. */
  datatype Spec =
    | ImportSpecNode
    | ValueSpec(names: seq<string>)
    | TypeSpec(name: string, line: int)

  /** A top-level declaration. */
  datatype Decl =
    | FuncDecl(doc: Option<CommentGroup>, recv: Option<FieldList>, name: string, typ: FuncType)
    | GenDecl(specs: seq<Spec>)
    | BadDecl

  /** An import: optional local name and the path literal, quotes included. */
  datatype ImportSpec = ImportSpec(name: Option<string>, path: string)

  datatype File = File(name: string, imports: seq<ImportSpec>, decls: seq<Decl>)

  /** What go/parser.ParseFile returns for some source bytes. */
  datatype ParseOutcome = Malformed(msg: string) | Parsed(file: File)
}
