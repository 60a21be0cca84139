/** The run of the command once the directory and type name are known
    (main.go:56-63): scan the package, then render the draft. Writing the
    result to disk is not part of this model. */
module Generator {

  import opened Outcome
  import opened Strs
  import opened GoAst
  import opened Scanner
  import opened Package
  import opened Template
  import opened TypeExpr

  /** The draft for a directory listing, or the first failure. */
  function Pipeline(listing: Result<seq<DirEntry>>, structName: string, ifaceName: string): Result<seq<string>> {
    match ScanDir(listing, structName)
    case Fail(e) => Fail(e)
    case Ok(files) => Generate(files, ifaceName)
  }

  method Run(listing: Result<seq<DirEntry>>, structName: string, ifaceName: string) returns (r: Result<seq<string>>)
    ensures r == Pipeline(listing, structName, ifaceName)
  {
    var files := ParsePackage(listing, structName);
    if files.Fail? {
      return Fail(files.err);
    }
    r := GenerateFile(files.value, ifaceName);
  }

  /** `d` is a declaration of the file held by entry `e`. */
  predicate DeclaredIn(d: Decl, e: DirEntry) {
    e.contents.Readable? && e.contents.src.Parsed? && d in e.contents.src.file.decls
  }

  /** Every method of the aggregate comes from a scanned file's exported
      method on the target type, by value or by pointer. */
  lemma MethodsFromTarget(entries: seq<DirEntry>, structName: string, m: Method)
    requires PackageFiles(entries, structName).Ok?
    requires m in AllMethods(PackageFiles(entries, structName).value)
    ensures exists e, d ::
      (e in entries && !Skipped(e) && DeclaredIn(d, e) &&
       OnStruct(d, structName) && DeclMethod(d, structName) == Ok(Some(m)))
  {
    var files := PackageFiles(entries, structName).value;
    AllMethodsMember(files, m);
    var k :| 0 <= k < |files| && m in files[k].methods;
    PackageFilesKept(entries, structName);
    var e := Kept(entries)[k];
    assert e in Kept(entries);
    assert ScanEntry(e, structName) == Ok(files[k]);
    var f := e.contents.src.file;
    FileMethodsMember(f.decls, structName, m);
    var i :| 0 <= i < |f.decls| && DeclMethod(f.decls[i], structName) == Ok(Some(m));
    var d := f.decls[i];
    DeclMethodSpec(d, structName);
    assert DeclaredIn(d, e);
  }

  /** Conversely, every method an exported declaration on the target type
      yields in a scanned entry is in the aggregate. */
  lemma TargetMethodsCollected(entries: seq<DirEntry>, structName: string, e: DirEntry, d: Decl, m: Method)
    requires PackageFiles(entries, structName).Ok?
    requires e in entries && !Skipped(e) && DeclaredIn(d, e)
    requires DeclMethod(d, structName) == Ok(Some(m))
    ensures m in AllMethods(PackageFiles(entries, structName).value)
  {
    var files := PackageFiles(entries, structName).value;
    KeptMember(entries, e);
    PackageFilesKept(entries, structName);
    var k :| 0 <= k < |Kept(entries)| && Kept(entries)[k] == e;
    assert ScanEntry(e, structName) == Ok(files[k]);
    var decls := e.contents.src.file.decls;
    assert FileMethods(decls, structName) == Ok(files[k].methods);
    var i :| 0 <= i < |decls| && decls[i] == d;
    FileMethodsMember(decls, structName, m);
    AllMethodsMember(files, m);
  }

  /** With no file to scan there is no package name to take: the run fails. */
  lemma NothingToScanFails(entries: seq<DirEntry>, structName: string, ifaceName: string)
    requires forall i :: 0 <= i < |entries| ==> Skipped(entries[i])
    ensures Pipeline(Ok(entries), structName, ifaceName) == Fail(IndexOutOfRange)
  {
    PackageFilesFailIff(entries, structName);
    PackageFilesKept(entries, structName);
    NoneKept(entries);
  }

  lemma {:induction false} NoneKept(entries: seq<DirEntry>)
    requires forall i :: 0 <= i < |entries| ==> Skipped(entries[i])
    ensures Kept(entries) == []
  {
    if |entries| > 0 {
      var pre := entries[..|entries| - 1];
      assert forall i :: 0 <= i < |pre| ==> pre[i] == entries[i];
      NoneKept(pre);
    }
  }

  // ---------------------------------------------------------------------------
  // A worked example: one file declaring type T with an exported method Get
  // (documented) and an unexported method private, and a blank import beside a
  // normal one.

  const ExampleRecv: Option<FieldList> := Some(FieldList([Field(["t"], StarExpr(Ident("T")))]))
  const ExampleParams: seq<Field> := [Field(["id"], Ident("string"))]
  const ExampleResults: seq<Field> := [Field([], Ident("string")), Field([], Ident("error"))]
  const ExampleGet: Decl := FuncDecl(Some(CommentGroup(["// Get looks up id."])), ExampleRecv, "Get",
    FuncType(None, Some(FieldList(ExampleParams)), Some(FieldList(ExampleResults))))
  const ExamplePrivate: Decl := FuncDecl(None, ExampleRecv, "private", FuncType(None, Some(FieldList([])), None))
  const ExampleImports: seq<ImportSpec> := [ImportSpec(None, "\"fmt\""), ImportSpec(Some("_"), "\"embed\"")]
  const ExampleEntry: DirEntry :=
    DirEntry("store.go", false, Readable(Parsed(File("store", ExampleImports, [ExampleGet, ExamplePrivate]))))
  /** Unnamed results are rendered with a leading space; the formatting pass
      that follows the draft removes such spaces. */
  const ExampleMethod: Method := Method("Get", "Get(id string) ( string,  error)", ["// Get looks up id."])

  lemma ExampleFieldTexts()
    ensures FieldTexts(ExampleParams) == Ok(["id string"])
    ensures FieldTexts(ExampleResults) == Ok([" string", " error"])
  {
    var ps, rs := ExampleParams, ExampleResults;
    assert "id" + " " + "string" == "id string";
    assert "" + " " + "string" == " string";
    assert "" + " " + "error" == " error";
    assert forall i :: 0 <= i < |ps| ==> Supported(ps[i].typ);
    assert forall i :: 0 <= i < |rs| ==> Supported(rs[i].typ);
    FieldTextsAt(ps);
    FieldTextsAt(rs);
    assert Join(ps[0].names, ", ") == "id" && Join(rs[0].names, ", ") == "" && Join(rs[1].names, ", ") == "";
    assert FieldTexts(ps).value[0] == "id string";
    assert FieldTexts(rs).value[0] == " string";
    assert FieldTexts(rs).value[1] == " error";
    assert FieldTexts(ps).value == ["id string"];
    assert FieldTexts(rs).value == [" string", " error"];
  }

  /** Get is kept, with its doc line. */
  lemma ExampleGetKept()
    ensures DeclMethod(ExampleGet, "T") == Ok(Some(ExampleMethod))
  {
    ExampleGetOnStruct();
    ExampleGetSupported();
    DeclMethodSpec(ExampleGet, "T");
    ExampleFieldTexts();
    ExampleSignature();
  }

  lemma ExampleGetOnStruct()
    ensures OnStruct(ExampleGet, "T")
  {
    assert "*" + "T" == "*T";
    assert ReceiverType(ExampleGet) == Ok("*T");
    assert TrimPrefix("*T", "*") == "T";
  }

  lemma ExampleGetSupported()
    ensures SignatureSupported(ExampleGet)
  {
    assert forall i :: 0 <= i < |ExampleParams| ==> Supported(ExampleParams[i].typ);
    assert forall i :: 0 <= i < |ExampleResults| ==> Supported(ExampleResults[i].typ);
  }

  lemma ExampleSignature()
    ensures Signature("Get", ["id string"], [" string", " error"]) == ExampleMethod.code
  {
    var results := [" string", " error"];
    assert results[1..] == [" error"];
    assert Join(results, ", ") == " string" + ", " + " error";
    assert Join(["id string"], ", ") == "id string";
    ExampleCode();
  }

  lemma ExampleCode()
    ensures "Get" + "(" + "id string" + ") (" + (" string" + ", " + " error") + ")" == ExampleMethod.code
  {
    var params := "Get" + "(" + "id string";
    var results := " string" + ", " + " error";
    assert params == "Get(id string";
    assert results == " string,  error";
    var head := params + ") (";
    assert head == "Get(id string) (";
    var full := head + results;
    assert full == "Get(id string) ( string,  error";
    assert full + ")" == ExampleMethod.code;
  }

  /** private is not exported, so it is skipped. */
  lemma ExamplePrivateSkipped()
    ensures DeclMethod(ExamplePrivate, "T") == Ok(None)
  {
    assert !IsExported("private");
  }

  /** The blank import is dropped and the method list holds Get alone. */
  lemma ExampleScan()
    ensures ScanEntry(ExampleEntry, "T") == Ok(ScannedFile("store", ["\"fmt\""], [ExampleMethod]))
  {
    ExampleGetKept();
    ExamplePrivateSkipped();
    var ds := [ExampleGet, ExamplePrivate];
    assert ds[..1] == [ExampleGet] && [ExampleGet][..0] == [];
    FileMethodsStep([ExampleGet], "T");
    assert [] + [ExampleMethod] == [ExampleMethod];
    assert FileMethods([ExampleGet], "T") == Ok([ExampleMethod]);
    assert FileMethods(ds, "T") == Ok([ExampleMethod]);
    assert ExampleImports[..1] == [ExampleImports[0]] && ExampleImports[..1][..0] == [];
    assert ImportLines(ExampleImports) == ["\"fmt\""];
  }

  const ExampleScanned: ScannedFile := ScannedFile("store", ["\"fmt\""], [ExampleMethod])

  lemma ExamplePackage()
    ensures ScanDir(Ok([ExampleEntry]), "T") == Ok([ExampleScanned])
  {
    assert !Skipped(ExampleEntry);
    ExampleScan();
    assert [ExampleEntry][..0] == [];
    assert EntryFiles(ExampleEntry, "T") == Ok([ExampleScanned]);
    assert PackageFiles([], "T") == Ok([]);
    assert [] + [ExampleScanned] == [ExampleScanned];
    assert Then(Ok([]), Ok([ExampleScanned])) == Ok([ExampleScanned]);
    assert PackageFiles([ExampleEntry], "T") == Then(PackageFiles([], "T"), EntryFiles(ExampleEntry, "T"));
  }

  lemma ExampleDraft()
    ensures Generate([ExampleScanned], "Interface") ==
      Ok([Header, "package store", "import (", "\"fmt\"", ")", "type Interface interface {",
          "// Get looks up id.", "Get(id string) ( string,  error)", "}"])
  {
    var sf := ExampleScanned;
    assert [sf][..0] == [];
    assert AllImports([sf]) == ["\"fmt\""];
    assert AllMethods([sf]) == [ExampleMethod];
    BodyLinesOne(ExampleMethod);
    assert "package " + "store" == "package store";
    assert "type " + "Interface" + " interface {" == "type Interface interface {";
    var body := BodyLines(AllMethods([sf]));
    assert body == ["// Get looks up id.", "Get(id string) ( string,  error)"];
    assert Draft("store", ["\"fmt\""], "Interface", [ExampleMethod]) ==
      [Header, "package store", "import (", "\"fmt\"", ")", "type Interface interface {",
       "// Get looks up id.", "Get(id string) ( string,  error)", "}"];
  }

  /** The whole run on that directory: the draft holds only Get, with its doc
      line, and only the normal import. */
  lemma GetOnlyExample()
    ensures Pipeline(Ok([ExampleEntry]), "T", "Interface") ==
      Ok([Header, "package store", "import (", "\"fmt\"", ")", "type Interface interface {",
          "// Get looks up id.", "Get(id string) ( string,  error)", "}"])
  {
    ExamplePackage();
    ExampleDraft();
  }
}
