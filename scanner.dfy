/** The declaration scanner of ast.go: `ParseFile`, `ParseFieldList` and
    `isExportedMethod`.

    The Go functions are loops that append to slices; here each is a method
    whose postcondition ties its result to a recursive specification function
    (`ScanFile`, `FieldListTexts`), and the lemmas below say what those
    functions promise: which declarations become methods, in which order, with
    which text, and when the scan fails. */
module Scanner {

  import opened Outcome
  import opened Strs
  import opened GoAst
  import opened TypeExpr

  /** An exported method of the target type: its name, its signature text as it
      appears in the interface, and its doc comment lines. */
  datatype Method = Method(name: string, code: string, docs: seq<string>)

  /** What the scanner keeps of one source file. */
  datatype ScannedFile = ScannedFile(packageName: string, imports: seq<string>, methods: seq<Method>)

  // ---------------------------------------------------------------------------
  // Imports

  /** A blank import `import _ "p"` is only there for its side effects. */
  predicate IsBlank(spec: ImportSpec) {
    spec.name == Some("_")
  }

  /** The text of an import: `name "path"` or `"path"`, the path literal
      keeping its quotes. */
  function ImportLine(spec: ImportSpec): string {
    match spec.name
    case Some(n) => n + " " + spec.path
    case None => spec.path
  }

  /** The import lines of a file, in source order, blank imports skipped. */
  function ImportLines(specs: seq<ImportSpec>): seq<string> {
    if |specs| == 0 then []
    else
      var last := specs[|specs| - 1];
      ImportLines(specs[..|specs| - 1]) + (if IsBlank(last) then [] else [ImportLine(last)])
  }

  /** Import lines are collected spec by spec: the lines of two consecutive
      runs of specs are the lines of the first followed by those of the second. */
  lemma {:induction false} ImportLinesAppend(a: seq<ImportSpec>, b: seq<ImportSpec>)
    ensures ImportLines(a + b) == ImportLines(a) + ImportLines(b)
    decreases |b|
  {
    if |b| == 0 {
      assert a + b == a;
    } else {
      var b' := b[..|b| - 1];
      assert (a + b)[..|a + b| - 1] == a + b';
      assert (a + b)[|a + b| - 1] == b[|b| - 1];
      ImportLinesAppend(a, b');
    }
  }

  /** A line is collected exactly when some non-blank import renders to it. */
  lemma {:induction false} ImportLinesIff(specs: seq<ImportSpec>, line: string)
    ensures line in ImportLines(specs) <==>
      exists i :: 0 <= i < |specs| && !IsBlank(specs[i]) && ImportLine(specs[i]) == line
  {
    if |specs| > 0 {
      var n := |specs| - 1;
      var pre, last := specs[..n], specs[n];
      ImportLinesIff(pre, line);
      assert ImportLines(specs) == ImportLines(pre) + (if IsBlank(last) then [] else [ImportLine(last)]);
      assert line in ImportLines(specs) <==>
        line in ImportLines(pre) || (!IsBlank(last) && ImportLine(last) == line);
      if line in ImportLines(pre) {
        var i :| 0 <= i < n && !IsBlank(pre[i]) && ImportLine(pre[i]) == line;
        assert specs[i] == pre[i];
      }
      if exists i :: 0 <= i < |specs| && !IsBlank(specs[i]) && ImportLine(specs[i]) == line {
        var i :| 0 <= i < |specs| && !IsBlank(specs[i]) && ImportLine(specs[i]) == line;
        if i < n {
          assert specs[..n][i] == specs[i];
        }
      }
    }
  }

  /** Splits an import line at its first space: the inverse of `ImportLine`. */
  function SplitImportLine(line: string): (r: ImportSpec)
    ensures |r.path| <= |line|
  {
    if ' ' in line then
      var k := FirstSpace(line);
      ImportSpec(Some(line[..k]), line[k + 1..])
    else
      ImportSpec(None, line)
  }

  function FirstSpace(s: string): (k: nat)
    requires ' ' in s
    ensures k < |s| && s[k] == ' '
    ensures forall j :: 0 <= j < k ==> s[j] != ' '
  {
    if s[0] == ' ' then 0 else
      assert s == [s[0]] + s[1..];
      1 + FirstSpace(s[1..])
  }

  /** An import line determines its import: a local name (which never contains
      a space) and a path literal (which may not contain one either) are read
      back from the line. */
  lemma SplitImportLineInverse(spec: ImportSpec)
    requires spec.name.Some? ==> ' ' !in spec.name.value
    requires ' ' !in spec.path
    ensures SplitImportLine(ImportLine(spec)) == spec
  {
    var line := ImportLine(spec);
    if spec.name.Some? {
      var n := spec.name.value;
      assert line == n + (" " + spec.path);
      assert line[|n|] == ' ';
      assert forall j :: 0 <= j < |n| ==> line[j] == n[j];
      var k := FirstSpace(line);
      assert k == |n|;
      assert line[..k] == n;
      assert line[k + 1..] == spec.path;
    }
  }

  // ---------------------------------------------------------------------------
  // Field lists

  /** One field of a parameter or result list: its names joined by ", ", a
      space, and its rendered type. An unnamed field thus starts with a space. */
  function FieldText(f: Field): Result<string> {
    match ParseExpr(f.typ)
    case Ok(t) => Ok(Join(f.names, ", ") + " " + t)
    case Fail(e) => Fail(e)
  }

  /** The texts of a sequence of fields, stopping at the first field whose
      type cannot be rendered. */
  function FieldTexts(fs: seq<Field>): Result<seq<string>> {
    if |fs| == 0 then Ok([])
    else
      match FieldTexts(fs[..|fs| - 1])
      case Fail(e) => Fail(e)
      case Ok(prev) =>
        match FieldText(fs[|fs| - 1])
        case Fail(e) => Fail(e)
        case Ok(t) => Ok(prev + [t])
  }

  /** A nil field list contributes no text. */
  function FieldListTexts(fields: Option<FieldList>): Result<seq<string>> {
    match fields
    case None => Ok([])
    case Some(l) => FieldTexts(l.list)
  }

  /** Every field's type lies in the renderer's grammar. */
  predicate FieldsSupported(fields: Option<FieldList>) {
    fields.Some? ==> forall i :: 0 <= i < |fields.value.list| ==> Supported(fields.value.list[i].typ)
  }

  /** The texts of a field list: one per field, in order, each `names type`;
      and a failure exactly when some field's type is unsupported. */
  lemma {:induction false} FieldTextsAt(fs: seq<Field>)
    ensures FieldTexts(fs).Ok? <==> forall i :: 0 <= i < |fs| ==> Supported(fs[i].typ)
    ensures FieldTexts(fs).Ok? ==>
      |FieldTexts(fs).value| == |fs| &&
      forall i :: 0 <= i < |fs| ==>
        FieldTexts(fs).value[i] == Join(fs[i].names, ", ") + " " + ParseExpr(fs[i].typ).value
    ensures FieldTexts(fs).Fail? ==> FieldTexts(fs).err.Unsupported?
  {
    if |fs| > 0 {
      var n := |fs| - 1;
      FieldTextsAt(fs[..n]);
      assert forall i :: 0 <= i < n ==> fs[..n][i] == fs[i];
    }
  }

  /** ParseFieldList (ast.go:77-90): the loop appends one text per field. */
  method ParseFieldList(fields: Option<FieldList>) returns (r: Result<seq<string>>)
    ensures r == FieldListTexts(fields)
  {
    if fields.None? {
      return Ok([]);
    }
    var fs := fields.value.list;
    var results: seq<string> := [];
    for i := 0 to |fs|
      invariant FieldTexts(fs[..i]) == Ok(results)
    {
      var names: seq<string> := [];
      for j := 0 to |fs[i].names|
        invariant names == fs[i].names[..j]
      {
        names := names + [fs[i].names[j]];
      }
      assert names == fs[i].names;
      var t := ParseExpr(fs[i].typ);
      assert fs[..i + 1][..i] == fs[..i];
      if t.Fail? {
        FieldTextsPrefixFails(fs, i + 1);
        return Fail(t.err);
      }
      results := results + [Join(names, ", ") + " " + t.value];
    }
    assert fs[..|fs|] == fs;
    return Ok(results);
  }

  /** A failure among the first `n` fields is the failure of the whole list. */
  lemma {:induction false} FieldTextsPrefixFails(fs: seq<Field>, n: nat)
    requires n <= |fs| && FieldTexts(fs[..n]).Fail?
    ensures FieldTexts(fs) == FieldTexts(fs[..n])
    decreases |fs| - n
  {
    if n < |fs| {
      assert fs[..n + 1][..n] == fs[..n];
      FieldTextsPrefixFails(fs, n + 1);
    } else {
      assert fs[..n] == fs;
    }
  }

  // ---------------------------------------------------------------------------
  // Declarations

  /** isExportedMethod (ast.go:92-98): a function declaration with a receiver
      and an exported name. */
  predicate IsExportedMethod(d: Decl) {
    d.FuncDecl? && d.recv.Some? && IsExported(d.name)
  }

  /** The rendered type of the first receiver field; indexing an empty receiver
      list is a run-time fault. */
  function ReceiverType(d: Decl): Result<string>
    requires d.FuncDecl? && d.recv.Some?
  {
    if |d.recv.value.list| == 0 then Fail(IndexOutOfRange)
    else ParseExpr(d.recv.value.list[0].typ)
  }

  /** `d` is an exported method whose receiver is the target type, by value or
      by pointer. */
  predicate OnStruct(d: Decl, structName: string) {
    IsExportedMethod(d) && ReceiverType(d).Ok? && TrimPrefix(ReceiverType(d).value, "*") == structName
  }

  /** Every type in the signature, type parameters included, can be rendered. */
  predicate SignatureSupported(d: Decl)
    requires d.FuncDecl?
  {
    FieldsSupported(d.typ.typeParams) && FieldsSupported(d.typ.params) && FieldsSupported(d.typ.results)
  }

  /** The signature text `Name(params) (results)`. */
  function Signature(name: string, params: seq<string>, results: seq<string>): string {
    name + "(" + Join(params, ", ") + ") (" + Join(results, ", ") + ")"
  }

  /** The comment texts of a doc group; none without one. */
  function DocTexts(doc: Option<CommentGroup>): seq<string> {
    match doc
    case None => []
    case Some(g) => g.list
  }

  /** What one declaration contributes: nothing, one method, or a failure. */
  function DeclMethod(d: Decl, structName: string): Result<Option<Method>> {
    if !IsExportedMethod(d) then Ok(None)
    else
      match ReceiverType(d)
      case Fail(e) => Fail(e)
      case Ok(rt) =>
        if TrimPrefix(rt, "*") != structName then Ok(None)
        else
          match FieldListTexts(d.typ.typeParams)
          case Fail(e) => Fail(e)
          case Ok(_) =>
            match FieldListTexts(d.typ.params)
            case Fail(e) => Fail(e)
            case Ok(ps) =>
              match FieldListTexts(d.typ.results)
              case Fail(e) => Fail(e)
              case Ok(rs) => Ok(Some(Method(d.name, Signature(d.name, ps, rs), DocTexts(d.doc))))
  }

  lemma FieldListTextsAt(fields: Option<FieldList>)
    ensures FieldListTexts(fields).Ok? <==> FieldsSupported(fields)
    ensures FieldListTexts(fields).Fail? ==> FieldListTexts(fields).err.Unsupported?
  {
    if fields.Some? {
      FieldTextsAt(fields.value.list);
    }
  }

  /** A declaration yields a method exactly when it is an exported method on the
      target type (receiver by value or by pointer) whose signature can be
      rendered; the method has the declaration's name and doc lines verbatim.
      It fails exactly when it is an exported method whose receiver cannot be
      rendered, or one on the target type whose signature cannot be. */
  lemma DeclMethodSpec(d: Decl, structName: string)
    ensures DeclMethod(d, structName).Ok? && DeclMethod(d, structName).value.Some? <==>
      OnStruct(d, structName) && SignatureSupported(d)
    ensures DeclMethod(d, structName).Fail? <==>
      IsExportedMethod(d) &&
      (ReceiverType(d).Fail? || (OnStruct(d, structName) && !SignatureSupported(d)))
    ensures OnStruct(d, structName) <==>
      d.FuncDecl? && d.recv.Some? && IsExported(d.name) && ReceiverType(d).Ok? &&
      (ReceiverType(d).value == "*" + structName ||
       (ReceiverType(d).value == structName && !HasPrefix(structName, "*")))
    ensures DeclMethod(d, structName).Ok? && DeclMethod(d, structName).value.Some? ==>
      var m := DeclMethod(d, structName).value.value;
      m.name == d.name && IsExported(m.name) && m.docs == DocTexts(d.doc) &&
      m.code == Signature(d.name, FieldListTexts(d.typ.params).value, FieldListTexts(d.typ.results).value)
  {
    if d.FuncDecl? {
      FieldListTextsAt(d.typ.typeParams);
      FieldListTextsAt(d.typ.params);
      FieldListTextsAt(d.typ.results);
      if d.recv.Some? && ReceiverType(d).Ok? {
        TrimStarIff(ReceiverType(d).value, structName);
      }
    }
  }

  /** Type parameters never reach the signature text: two declarations that
      differ only in their (renderable) type parameters yield the same method. */
  lemma TypeParamsIgnored(d: Decl, tps: Option<FieldList>, structName: string)
    requires d.FuncDecl? && FieldsSupported(d.typ.typeParams) && FieldsSupported(tps)
    ensures DeclMethod(d, structName) == DeclMethod(d.(typ := d.typ.(typeParams := tps)), structName)
  {
    FieldListTextsAt(d.typ.typeParams);
    FieldListTextsAt(tps);
  }

  /** The methods of a list of declarations, in declaration order, stopping at
      the first failure. */
  function FileMethods(decls: seq<Decl>, structName: string): Result<seq<Method>> {
    if |decls| == 0 then Ok([])
    else
      match FileMethods(decls[..|decls| - 1], structName)
      case Fail(e) => Fail(e)
      case Ok(ms) =>
        match DeclMethod(decls[|decls| - 1], structName)
        case Fail(e) => Fail(e)
        case Ok(None) => Ok(ms)
        case Ok(Some(m)) => Ok(ms + [m])
  }

  /** What one declaration contributes, as a list. */
  function DeclMethods(d: Decl, structName: string): Result<seq<Method>> {
    match DeclMethod(d, structName)
    case Fail(e) => Fail(e)
    case Ok(None) => Ok([])
    case Ok(Some(m)) => Ok([m])
  }

  /** The scan of a non-empty run of declarations is the scan of all but the
      last, followed by what the last contributes. */
  lemma FileMethodsStep(decls: seq<Decl>, structName: string)
    requires |decls| > 0
    ensures FileMethods(decls, structName) ==
      Then(FileMethods(decls[..|decls| - 1], structName), DeclMethods(decls[|decls| - 1], structName))
  {
    var pre := FileMethods(decls[..|decls| - 1], structName);
    if pre.Ok? {
      assert pre.value + [] == pre.value;
    }
  }

  /** Declaration order is kept: scanning two consecutive runs of declarations
      is scanning the first and then the second. */
  lemma {:induction false} FileMethodsAppend(a: seq<Decl>, b: seq<Decl>, structName: string)
    ensures FileMethods(a + b, structName) == Then(FileMethods(a, structName), FileMethods(b, structName))
    decreases |b|
  {
    if |b| == 0 {
      assert a + b == a;
      var fa := FileMethods(a, structName);
      if fa.Ok? {
        assert fa.value + [] == fa.value;
      }
    } else {
      var b' := b[..|b| - 1];
      var d := b[|b| - 1];
      assert (a + b)[..|a + b| - 1] == a + b';
      assert (a + b)[|a + b| - 1] == d;
      FileMethodsAppend(a, b', structName);
      FileMethodsStep(b, structName);
      FileMethodsStep(a + b, structName);
      ThenAssoc(FileMethods(a, structName), FileMethods(b', structName), DeclMethods(d, structName));
    }
  }

  /** The scan of a file fails exactly when some declaration fails. */
  lemma {:induction false} FileMethodsFailIff(decls: seq<Decl>, structName: string)
    ensures FileMethods(decls, structName).Fail? <==>
      exists i :: 0 <= i < |decls| && DeclMethod(decls[i], structName).Fail?
  {
    if |decls| > 0 {
      var n := |decls| - 1;
      var pre := decls[..n];
      FileMethodsFailIff(pre, structName);
      FileMethodsStep(decls, structName);
      if exists i :: 0 <= i < |decls| && DeclMethod(decls[i], structName).Fail? {
        var i :| 0 <= i < |decls| && DeclMethod(decls[i], structName).Fail?;
        if i < n {
          assert pre[i] == decls[i];
        }
      }
      if exists i :: 0 <= i < n && DeclMethod(pre[i], structName).Fail? {
        var i :| 0 <= i < n && DeclMethod(pre[i], structName).Fail?;
        assert pre[i] == decls[i];
      }
    }
  }

  /** When the scan of a file succeeds, a method is in the result exactly when
      some declaration yields it. */
  lemma {:induction false} FileMethodsMember(decls: seq<Decl>, structName: string, m: Method)
    requires FileMethods(decls, structName).Ok?
    ensures m in FileMethods(decls, structName).value <==>
      exists i :: 0 <= i < |decls| && DeclMethod(decls[i], structName) == Ok(Some(m))
  {
    if |decls| > 0 {
      var n := |decls| - 1;
      var pre, last := decls[..n], decls[n];
      var yieldsLast := DeclMethod(last, structName) == Ok(Some(m));
      FileMethodsMemberStep(decls, structName, m);
      FileMethodsMember(pre, structName, m);
      if m in FileMethods(pre, structName).value {
        var i :| 0 <= i < n && DeclMethod(pre[i], structName) == Ok(Some(m));
        assert pre[i] == decls[i];
      } else if yieldsLast {
        assert DeclMethod(decls[n], structName) == Ok(Some(m));
      } else {
        forall i | 0 <= i < |decls|
          ensures DeclMethod(decls[i], structName) != Ok(Some(m))
        {
          if i < n {
            assert pre[i] == decls[i];
          }
        }
      }
    }
  }

  lemma FileMethodsMemberStep(decls: seq<Decl>, structName: string, m: Method)
    requires |decls| > 0 && FileMethods(decls, structName).Ok?
    ensures FileMethods(decls[..|decls| - 1], structName).Ok?
    ensures m in FileMethods(decls, structName).value <==>
      m in FileMethods(decls[..|decls| - 1], structName).value || DeclMethod(decls[|decls| - 1], structName) == Ok(Some(m))
  {
  }

  /** A declaration the exported-method filter rejects (a general declaration,
      a free function, an unexported method) may sit anywhere in a file
      without changing its scan: it adds no method and cannot make the scan
      fail, whatever its receiver or signature. */
  lemma FilteredOutIgnored(a: seq<Decl>, d: Decl, b: seq<Decl>, structName: string)
    requires !IsExportedMethod(d)
    ensures FileMethods(a + [d] + b, structName) == FileMethods(a + b, structName)
  {
    FileMethodsAppend(a + [d], b, structName);
    FileMethodsAppend(a, [d], structName);
    FileMethodsAppend(a, b, structName);
    assert [d][..0] == [];
    assert FileMethods([d], structName) == Ok([]);
    var fa := FileMethods(a, structName);
    if fa.Ok? {
      assert fa.value + [] == fa.value;
    }
  }

  /** The receiver of every exported method is rendered before it is compared
      with the target: an exported method on any type whose receiver cannot be
      rendered (a generic `List[E]`, say), or whose receiver list is empty,
      makes the scan of its file fail, whatever type is targeted. */
  lemma ForeignReceiverAborts(a: seq<Decl>, d: Decl, b: seq<Decl>, structName: string)
    requires IsExportedMethod(d) && ReceiverType(d).Fail?
    ensures FileMethods(a + [d] + b, structName).Fail?
  {
    var decls := a + [d] + b;
    assert decls[|a|] == d;
    FileMethodsFailIff(decls, structName);
  }

  /** Only exported names reach the interface: every method a successful
      scan returns has a name starting with an upper-case letter. */
  lemma ScannedNamesExported(decls: seq<Decl>, structName: string)
    requires FileMethods(decls, structName).Ok?
    ensures forall m :: m in FileMethods(decls, structName).value ==> IsExported(m.name)
  {
    forall m | m in FileMethods(decls, structName).value
      ensures IsExported(m.name)
    {
      FileMethodsMember(decls, structName, m);
      var i :| 0 <= i < |decls| && DeclMethod(decls[i], structName) == Ok(Some(m));
      DeclMethodSpec(decls[i], structName);
    }
  }

  // ---------------------------------------------------------------------------
  // Files

  /** The scan of one parsed (or unparseable) file. */
  function ScanFile(src: ParseOutcome, structName: string): Result<ScannedFile> {
    match src
    case Malformed(msg) => Fail(ParseError(msg))
    case Parsed(f) =>
      match FileMethods(f.decls, structName)
      case Fail(e) => Fail(e)
      case Ok(ms) => Ok(ScannedFile(f.name, ImportLines(f.imports), ms))
  }

  /** The body of ParseFile's declaration loop (ast.go:51-72) for one
      declaration. */
  method ScanDecl(d: Decl, structName: string) returns (r: Result<Option<Method>>)
    ensures r == DeclMethod(d, structName)
  {
    if !IsExportedMethod(d) {
      return Ok(None);
    }
    if |d.recv.value.list| == 0 {
      return Fail(IndexOutOfRange);
    }
    var rt := ParseExpr(d.recv.value.list[0].typ);
    if rt.Fail? {
      return Fail(rt.err);
    }
    if TrimPrefix(rt.value, "*") != structName {
      return Ok(None);
    }
    var tps := ParseFieldList(d.typ.typeParams);
    if tps.Fail? {
      return Fail(tps.err);
    }
    var params := ParseFieldList(d.typ.params);
    if params.Fail? {
      return Fail(params.err);
    }
    var results := ParseFieldList(d.typ.results);
    if results.Fail? {
      return Fail(results.err);
    }
    var code := d.name + "(" + Join(params.value, ", ") + ") (" + Join(results.value, ", ") + ")";
    var docs: seq<string> := [];
    if d.doc.Some? {
      for j := 0 to |d.doc.value.list|
        invariant docs == d.doc.value.list[..j]
      {
        docs := docs + [d.doc.value.list[j]];
      }
      assert docs == d.doc.value.list;
    }
    return Ok(Some(Method(d.name, code, docs)));
  }

  /** ParseFile (ast.go:26-75). */
  method ParseFile(src: ParseOutcome, structName: string) returns (r: Result<ScannedFile>)
    ensures r == ScanFile(src, structName)
  {
    if src.Malformed? {
      return Fail(ParseError(src.msg));
    }
    var f := src.file;
    var imports := CollectImports(f.imports);
    var methods: seq<Method> := [];
    for i := 0 to |f.decls|
      invariant FileMethods(f.decls[..i], structName) == Ok(methods)
    {
      assert f.decls[..i + 1][..i] == f.decls[..i];
      var dm := ScanDecl(f.decls[i], structName);
      match dm
      case Fail(e) =>
        FileMethodsPrefixFails(f.decls, i + 1, structName);
        return Fail(e);
      case Ok(None) =>
      case Ok(Some(m)) =>
        methods := methods + [m];
    }
    assert f.decls[..|f.decls|] == f.decls;
    return Ok(ScannedFile(f.name, imports, methods));
  }

  /** The import loop of ParseFile (ast.go:39-48). */
  method CollectImports(specs: seq<ImportSpec>) returns (lines: seq<string>)
    ensures lines == ImportLines(specs)
  {
    lines := [];
    for i := 0 to |specs|
      invariant lines == ImportLines(specs[..i])
    {
      var spec := specs[i];
      assert specs[..i + 1][..i] == specs[..i];
      if spec.name.Some? {
        if spec.name.value == "_" {
          continue;
        }
        lines := lines + [spec.name.value + " " + spec.path];
      } else {
        lines := lines + [spec.path];
      }
    }
    assert specs[..|specs|] == specs;
  }

  /** A failure among the first `n` declarations is the failure of the file. */
  lemma FileMethodsPrefixFails(decls: seq<Decl>, n: nat, structName: string)
    requires n <= |decls| && FileMethods(decls[..n], structName).Fail?
    ensures FileMethods(decls, structName) == FileMethods(decls[..n], structName)
  {
    FileMethodsAppend(decls[..n], decls[n..], structName);
    assert decls[..n] + decls[n..] == decls;
  }
}
