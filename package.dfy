/** The package aggregator of ast.go: `ParsePackage`.

    The directory is given as its listing, in the order os.ReadDir returns it;
    each entry carries what reading the file yields (an error, or go/parser's
    outcome on its bytes). */
module Package {

  import opened Outcome
  import opened Strs
  import opened GoAst
  import opened Scanner

  /** What reading a file gives. */
  datatype Contents = Unreadable(msg: string) | Readable(src: ParseOutcome)

  datatype DirEntry = DirEntry(name: string, isDir: bool, contents: Contents)

  /** Entries the aggregator does not scan: directories, tests and generated
      files. Nothing else is filtered out; in particular no `.go` suffix is
      required. */
  predicate Skipped(e: DirEntry) {
    e.isDir || HasSuffix(e.name, "_test.go") || HasSuffix(e.name, ".iface.go")
  }

  /** The file name the command writes to when no output is given
      (main.go:48). */
  function DefaultOutputName(structName: string): string {
    "zz_" + structName + ".iface.go"
  }

  /** Reading and scanning one entry. */
  function ScanEntry(e: DirEntry, structName: string): Result<ScannedFile> {
    match e.contents
    case Unreadable(msg) => Fail(ReadError(msg))
    case Readable(src) => ScanFile(src, structName)
  }

  /** What one entry contributes to the result list. */
  function EntryFiles(e: DirEntry, structName: string): Result<seq<ScannedFile>> {
    if Skipped(e) then Ok([])
    else
      match ScanEntry(e, structName)
      case Fail(err) => Fail(err)
      case Ok(f) => Ok([f])
  }

  /** The scanned files of a listing, in listing order, stopping at the first
      failure. */
  function PackageFiles(entries: seq<DirEntry>, structName: string): Result<seq<ScannedFile>> {
    if |entries| == 0 then Ok([])
    else Then(PackageFiles(entries[..|entries| - 1], structName), EntryFiles(entries[|entries| - 1], structName))
  }

  /** The outcome for a directory whose listing may itself have failed. */
  function ScanDir(listing: Result<seq<DirEntry>>, structName: string): Result<seq<ScannedFile>> {
    match listing
    case Fail(e) => Fail(e)
    case Ok(entries) => PackageFiles(entries, structName)
  }

  /** ParsePackage (ast.go:117-140). */
  method ParsePackage(listing: Result<seq<DirEntry>>, structName: string) returns (r: Result<seq<ScannedFile>>)
    ensures r == ScanDir(listing, structName)
  {
    if listing.Fail? {
      return Fail(listing.err);
    }
    var entries := listing.value;
    var results: seq<ScannedFile> := [];
    for i := 0 to |entries|
      invariant PackageFiles(entries[..i], structName) == Ok(results)
    {
      var e := entries[i];
      assert entries[..i + 1][..i] == entries[..i];
      assert results + [] == results;
      if e.isDir {
        continue;
      }
      if HasSuffix(e.name, "_test.go") || HasSuffix(e.name, ".iface.go") {
        continue;
      }
      match e.contents
      case Unreadable(msg) =>
        PackageFilesPrefixFails(entries, i + 1, structName);
        return Fail(ReadError(msg));
      case Readable(src) =>
        var file := ParseFile(src, structName);
        if file.Fail? {
          PackageFilesPrefixFails(entries, i + 1, structName);
          return Fail(file.err);
        }
        results := results + [file.value];
    }
    assert entries[..|entries|] == entries;
    return Ok(results);
  }

  /** Listing order is kept: two consecutive runs of entries give the files of
      the first followed by those of the second. */
  lemma {:induction false} PackageFilesAppend(a: seq<DirEntry>, b: seq<DirEntry>, structName: string)
    ensures PackageFiles(a + b, structName) == Then(PackageFiles(a, structName), PackageFiles(b, structName))
    decreases |b|
  {
    if |b| == 0 {
      assert a + b == a;
      var fa := PackageFiles(a, structName);
      if fa.Ok? {
        assert fa.value + [] == fa.value;
      }
    } else {
      var b' := b[..|b| - 1];
      assert (a + b)[..|a + b| - 1] == a + b';
      assert (a + b)[|a + b| - 1] == b[|b| - 1];
      PackageFilesAppend(a, b', structName);
      ThenAssoc(PackageFiles(a, structName), PackageFiles(b', structName), EntryFiles(b[|b| - 1], structName));
    }
  }

  lemma PackageFilesPrefixFails(entries: seq<DirEntry>, n: nat, structName: string)
    requires n <= |entries| && PackageFiles(entries[..n], structName).Fail?
    ensures PackageFiles(entries, structName) == PackageFiles(entries[..n], structName)
  {
    PackageFilesAppend(entries[..n], entries[n..], structName);
    assert entries[..n] + entries[n..] == entries;
  }

  /** The entries that are scanned, in listing order. */
  function Kept(entries: seq<DirEntry>): (r: seq<DirEntry>)
    ensures forall e :: e in r ==> e in entries && !Skipped(e)
  {
    if |entries| == 0 then []
    else
      var last := entries[|entries| - 1];
      Kept(entries[..|entries| - 1]) + (if Skipped(last) then [] else [last])
  }

  /** No entry that is not skipped is left out. */
  lemma {:induction false} KeptMember(entries: seq<DirEntry>, e: DirEntry)
    requires e in entries && !Skipped(e)
    ensures e in Kept(entries)
  {
    var n := |entries| - 1;
    var pre, last := entries[..n], entries[n];
    assert Kept(entries) == Kept(pre) + (if Skipped(last) then [] else [last]);
    if e != last {
      var i :| 0 <= i < |entries| && entries[i] == e;
      assert pre[i] == e;
      KeptMember(pre, e);
    }
  }

  /** The aggregate fails exactly when some scanned entry fails. */
  lemma {:induction false} PackageFilesFailIff(entries: seq<DirEntry>, structName: string)
    ensures PackageFiles(entries, structName).Fail? <==>
      exists i :: 0 <= i < |entries| && !Skipped(entries[i]) && ScanEntry(entries[i], structName).Fail?
  {
    if |entries| > 0 {
      var n := |entries| - 1;
      var pre := entries[..n];
      PackageFilesFailIff(pre, structName);
      if exists i :: 0 <= i < |entries| && !Skipped(entries[i]) && ScanEntry(entries[i], structName).Fail? {
        var i :| 0 <= i < |entries| && !Skipped(entries[i]) && ScanEntry(entries[i], structName).Fail?;
        if i < n {
          assert pre[i] == entries[i];
        }
      }
      if exists i :: 0 <= i < n && !Skipped(pre[i]) && ScanEntry(pre[i], structName).Fail? {
        var i :| 0 <= i < n && !Skipped(pre[i]) && ScanEntry(pre[i], structName).Fail?;
        assert pre[i] == entries[i];
      }
    }
  }

  /** A successful aggregate holds one file per scanned entry, in listing
      order, each the scan of that entry. */
  lemma {:induction false} PackageFilesKept(entries: seq<DirEntry>, structName: string)
    requires PackageFiles(entries, structName).Ok?
    ensures var fs := PackageFiles(entries, structName).value;
      |fs| == |Kept(entries)| &&
      forall k :: 0 <= k < |fs| ==> ScanEntry(Kept(entries)[k], structName) == Ok(fs[k])
  {
    if |entries| > 0 {
      var n := |entries| - 1;
      var pre, last := entries[..n], entries[n];
      assert PackageFiles(pre, structName).Ok?;
      PackageFilesKept(pre, structName);
      var fsPre := PackageFiles(pre, structName).value;
      var fs := PackageFiles(entries, structName).value;
      assert Kept(entries) == Kept(pre) + (if Skipped(last) then [] else [last]);
      if Skipped(last) {
        assert fs == fsPre + [];
      } else {
        assert ScanEntry(last, structName).Ok?;
        assert fs == fsPre + [ScanEntry(last, structName).value];
      }
      forall k | 0 <= k < |fs|
        ensures ScanEntry(Kept(entries)[k], structName) == Ok(fs[k])
      {
        if k < |fsPre| {
          assert Kept(entries)[k] == Kept(pre)[k];
        }
      }
    }
  }

  /** The command's own default output is never fed back into it, whatever the
      type name. */
  lemma DefaultOutputSkipped(structName: string, contents: Contents)
    ensures Skipped(DirEntry(DefaultOutputName(structName), false, contents))
  {
    var name := DefaultOutputName(structName);
    var suffix := ".iface.go";
    assert name == ("zz_" + structName) + suffix;
    assert name[|name| - |suffix|..] == suffix;
  }

  /** Re-running after the output was written scans the same files: an entry
      holding the default output, wherever it appears in the listing, changes
      nothing. */
  lemma RerunUnaffected(a: seq<DirEntry>, b: seq<DirEntry>, structName: string, contents: Contents)
    ensures PackageFiles(a + [DirEntry(DefaultOutputName(structName), false, contents)] + b, structName) ==
      PackageFiles(a + b, structName)
  {
    var out := DirEntry(DefaultOutputName(structName), false, contents);
    DefaultOutputSkipped(structName, contents);
    assert PackageFiles([out], structName) == Then(Ok([]), Ok([]));
    PackageFilesAppend(a, [out], structName);
    PackageFilesAppend(a + [out], b, structName);
    PackageFilesAppend(a, b, structName);
    var fa := PackageFiles(a, structName);
    if fa.Ok? {
      assert fa.value + [] == fa.value;
    }
  }

  /** A file that is not Go source, such as go.mod, is not skipped: when the
      parser rejects it, the whole package fails. */
  lemma NonGoFileAborts(a: seq<DirEntry>, structName: string, msg: string)
    requires PackageFiles(a, structName).Ok?
    ensures PackageFiles(a + [DirEntry("go.mod", false, Readable(Malformed(msg)))], structName) ==
      Fail(ParseError(msg))
  {
    var e := DirEntry("go.mod", false, Readable(Malformed(msg)));
    assert !HasSuffix(e.name, "_test.go") && !HasSuffix(e.name, ".iface.go");
    assert (a + [e])[..|a|] == a;
  }
}
