/** The interface renderer of template.go: `GenerateFile`'s aggregation loop
    and the draft the template produces from it.

    The draft is given as its sequence of non-blank lines, without the
    template's indentation. goimports.Process, which turns the draft into the
    final bytes, is not part of this model. */
module Template {

  import opened Outcome
  import opened Scanner

  const Header: string := "// Code generated by ifacegen. DO NOT EDIT."

  /** The imports of all files, file after file, each file's in its own order. */
  function AllImports(files: seq<ScannedFile>): seq<string> {
    if |files| == 0 then []
    else AllImports(files[..|files| - 1]) + files[|files| - 1].imports
  }

  /** The methods of all files, file after file, each file's in its own order. */
  function AllMethods(files: seq<ScannedFile>): seq<Method> {
    if |files| == 0 then []
    else AllMethods(files[..|files| - 1]) + files[|files| - 1].methods
  }

  /** The lines of the interface body: for each method its doc lines, then its
      signature. */
  function BodyLines(methods: seq<Method>): seq<string> {
    if |methods| == 0 then []
    else
      var m := methods[|methods| - 1];
      BodyLines(methods[..|methods| - 1]) + m.docs + [m.code]
  }

  /** The lines of the draft: marker comment, package clause, import block and
      interface declaration. The closing brace is kept on a line of its own,
      where the template's trim markers join it to the last signature. */
  function Draft(packageName: string, imports: seq<string>, ifaceName: string, methods: seq<Method>): seq<string> {
    [Header, "package " + packageName, "import ("] + imports + [")", "type " + ifaceName + " interface {"]
      + BodyLines(methods) + ["}"]
  }

  /** The draft for a list of scanned files; the package name is taken from the
      first file, so an empty list is an index fault. */
  function Generate(files: seq<ScannedFile>, ifaceName: string): Result<seq<string>> {
    if |files| == 0 then Fail(IndexOutOfRange)
    else Ok(Draft(files[0].packageName, AllImports(files), ifaceName, AllMethods(files)))
  }

  /** GenerateFile (template.go:31-47), up to the call of goimports. */
  method GenerateFile(files: seq<ScannedFile>, ifaceName: string) returns (r: Result<seq<string>>)
    ensures r == Generate(files, ifaceName)
  {
    var imports: seq<string> := [];
    var methods: seq<Method> := [];
    for i := 0 to |files|
      invariant imports == AllImports(files[..i])
      invariant methods == AllMethods(files[..i])
    {
      assert files[..i + 1][..i] == files[..i];
      imports := imports + files[i].imports;
      methods := methods + files[i].methods;
    }
    assert files[..|files|] == files;
    if |files| == 0 {
      return Fail(IndexOutOfRange);
    }
    return Ok(Draft(files[0].packageName, imports, ifaceName, methods));
  }

  /** File order is kept: the imports of two runs of files are the imports of
      the first followed by those of the second; nothing is dropped or merged. */
  lemma {:induction false} AllImportsAppend(a: seq<ScannedFile>, b: seq<ScannedFile>)
    ensures AllImports(a + b) == AllImports(a) + AllImports(b)
    decreases |b|
  {
    if |b| == 0 {
      assert a + b == a;
    } else {
      var b', last := b[..|b| - 1], b[|b| - 1];
      var ab := a + b;
      assert ab[..|ab| - 1] == a + b';
      assert ab[|ab| - 1] == last;
      assert AllImports(ab) == AllImports(a + b') + last.imports;
      assert AllImports(b) == AllImports(b') + last.imports;
      AllImportsAppend(a, b');
    }
  }

  /** Likewise for methods. */
  lemma {:induction false} AllMethodsAppend(a: seq<ScannedFile>, b: seq<ScannedFile>)
    ensures AllMethods(a + b) == AllMethods(a) + AllMethods(b)
    decreases |b|
  {
    if |b| == 0 {
      assert a + b == a;
    } else {
      var b', last := b[..|b| - 1], b[|b| - 1];
      var ab := a + b;
      assert ab[..|ab| - 1] == a + b';
      assert ab[|ab| - 1] == last;
      assert AllMethods(ab) == AllMethods(a + b') + last.methods;
      assert AllMethods(b) == AllMethods(b') + last.methods;
      AllMethodsAppend(a, b');
    }
  }

  /** The number of imports across files. */
  function ImportCount(files: seq<ScannedFile>): nat {
    if |files| == 0 then 0 else ImportCount(files[..|files| - 1]) + |files[|files| - 1].imports|
  }

  /** No import is deduplicated or filtered here: the aggregate has exactly as
      many entries as the files together, and each comes from some file. */
  lemma {:induction false} AllImportsCount(files: seq<ScannedFile>, line: string)
    ensures |AllImports(files)| == ImportCount(files)
    ensures line in AllImports(files) <==> exists i :: 0 <= i < |files| && line in files[i].imports
  {
    if |files| > 0 {
      var n := |files| - 1;
      var pre := files[..n];
      AllImportsCount(pre, line);
      if exists i :: 0 <= i < |files| && line in files[i].imports {
        var i :| 0 <= i < |files| && line in files[i].imports;
        if i < n {
          assert pre[i] == files[i];
        }
      }
      if exists i :: 0 <= i < n && line in pre[i].imports {
        var i :| 0 <= i < n && line in pre[i].imports;
        assert pre[i] == files[i];
      }
    }
  }

  /** A method is in the aggregate exactly when it is in some file. */
  lemma {:induction false} AllMethodsMember(files: seq<ScannedFile>, m: Method)
    ensures m in AllMethods(files) <==> exists i :: 0 <= i < |files| && m in files[i].methods
  {
    if |files| > 0 {
      var n := |files| - 1;
      var pre := files[..n];
      AllMethodsMember(pre, m);
      if exists i :: 0 <= i < |files| && m in files[i].methods {
        var i :| 0 <= i < |files| && m in files[i].methods;
        if i < n {
          assert pre[i] == files[i];
        }
      }
      if exists i :: 0 <= i < n && m in pre[i].methods {
        var i :| 0 <= i < n && m in pre[i].methods;
        assert pre[i] == files[i];
      }
    }
  }

  /** Lines of consecutive runs of methods follow one another. */
  lemma {:induction false} BodyLinesAppend(a: seq<Method>, b: seq<Method>)
    ensures BodyLines(a + b) == BodyLines(a) + BodyLines(b)
    decreases |b|
  {
    if |b| == 0 {
      assert a + b == a;
    } else {
      var b', m := b[..|b| - 1], b[|b| - 1];
      var ab := a + b;
      assert ab[..|ab| - 1] == a + b';
      assert ab[|ab| - 1] == m;
      assert BodyLines(ab) == BodyLines(a + b') + m.docs + [m.code];
      assert BodyLines(b) == BodyLines(b') + m.docs + [m.code];
      BodyLinesAppend(a, b');
    }
  }

  /** The body holds every method, in order: the k-th method's doc lines and
      then its signature sit right after the lines of the methods before it. */
  lemma BodyLinesAt(methods: seq<Method>, k: nat)
    requires k < |methods|
    ensures BodyLines(methods) ==
      BodyLines(methods[..k]) + (methods[k].docs + [methods[k].code]) + BodyLines(methods[k + 1..])
  {
    var m := methods[k];
    var before, after := methods[..k], methods[k + 1..];
    SplitAround(methods, k);
    calc {
      BodyLines(methods);
      BodyLines((before + [m]) + after);
      { BodyLinesAppend(before + [m], after); }
      BodyLines(before + [m]) + BodyLines(after);
      { BodyLinesAppend(before, [m]); BodyLinesOne(m); }
      BodyLines(before) + (m.docs + [m.code]) + BodyLines(after);
    }
  }

  lemma SplitAround<T>(s: seq<T>, k: nat)
    requires k < |s|
    ensures s == (s[..k] + [s[k]]) + s[k + 1..]
  {
  }

  lemma BodyLinesOne(m: Method)
    ensures BodyLines([m]) == m.docs + [m.code]
  {
    assert [m][..0] == [];
  }

  /** The layout of a successful draft. */
  lemma DraftLayout(files: seq<ScannedFile>, ifaceName: string)
    requires |files| > 0
    ensures Generate(files, ifaceName).Ok?
    ensures var lines := Generate(files, ifaceName).value;
      var imports := AllImports(files);
      var n := |imports|;
      |lines| == 6 + n + |BodyLines(AllMethods(files))| &&
      lines[0] == Header &&
      lines[1] == "package " + files[0].packageName &&
      lines[2] == "import (" && lines[3..3 + n] == imports && lines[3 + n] == ")" &&
      lines[4 + n] == "type " + ifaceName + " interface {" &&
      lines[5 + n..|lines| - 1] == BodyLines(AllMethods(files)) &&
      lines[|lines| - 1] == "}"
  {
    DraftIndices(files[0].packageName, AllImports(files), ifaceName, BodyLines(AllMethods(files)));
  }

  /** Where each part of the draft sits, on the line sequence alone. */
  lemma DraftIndices(packageName: string, imports: seq<string>, ifaceName: string, body: seq<string>)
    ensures var lines := [Header, "package " + packageName, "import ("] + imports
        + [")", "type " + ifaceName + " interface {"] + body + ["}"];
      var n := |imports|;
      |lines| == 6 + n + |body| &&
      lines[0] == Header &&
      lines[1] == "package " + packageName &&
      lines[2] == "import (" && lines[3..3 + n] == imports && lines[3 + n] == ")" &&
      lines[4 + n] == "type " + ifaceName + " interface {" &&
      lines[5 + n..|lines| - 1] == body &&
      lines[|lines| - 1] == "}"
  {
    var head: seq<string> := [Header, "package " + packageName, "import ("];
    var mid: seq<string> := [")", "type " + ifaceName + " interface {"];
    var tail := body + ["}"];
    var lines := head + imports + mid + body + ["}"];
    var n := |imports|;
    assert lines == head + (imports + (mid + tail));
    assert lines[..3] == head;
    assert lines[3..] == imports + (mid + tail);
    assert lines[3..][..n] == imports;
    assert lines[3..][n..] == mid + tail;
    assert lines[3 + n..] == mid + tail;
    assert lines[5 + n..] == tail;
    assert lines[5 + n..][..|body|] == body;
  }
}
