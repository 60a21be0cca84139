/** The type-expression renderer (`ParseExpr` in ast.go) and a reader for the
    text it produces.

    The renderer covers a closed grammar: identifiers, qualified identifiers,
    pointers, slices/arrays and maps. Any other node kind is a panic in the Go
    program and a `Fail(Unsupported(..))` here. The reader `ReadType` is an
    independent definition of the same grammar, read from left to right; the
    lemma `RoundTrip` shows that rendering loses nothing on the expressions a
    Go parser can give back. */
module TypeExpr {

  import opened Outcome
  import opened Strs
  import opened GoAst

  /** No node of `x` lies outside the renderer's grammar. */
  predicate Supported(x: Expr) {
    match x
    case Ident(_) => true
    case SelectorExpr(y, _) => Supported(y)
    case StarExpr(y) => Supported(y)
    case ArrayType(_, e) => Supported(e)
    case MapType(k, v) => Supported(k) && Supported(v)
    case OtherExpr(_) => false
  }

  /** The canonical text of a type expression; fails exactly when some node is
      outside the grammar, naming the kind of that node. */
  function ParseExpr(x: Expr): (r: Result<string>)
    ensures r.Ok? <==> Supported(x)
    ensures r.Fail? ==> r.err.Unsupported?
  {
    match x
    case StarExpr(y) =>
      (match ParseExpr(y)
       case Ok(s) => Ok("*" + s)
       case Fail(e) => Fail(e))
    case Ident(name) => Ok(name)
    case SelectorExpr(y, sel) =>
      (match ParseExpr(y)
       case Ok(s) => Ok(s + "." + sel)
       case Fail(e) => Fail(e))
    case ArrayType(_, elt) =>
      (match ParseExpr(elt)
       case Ok(s) => Ok("[]" + s)
       case Fail(e) => Fail(e))
    case MapType(key, value) =>
      (match ParseExpr(key)
       case Fail(e) => Fail(e)
       case Ok(k) =>
         match ParseExpr(value)
         case Fail(e) => Fail(e)
         case Ok(v) => Ok("map[" + k + "]" + v))
    case OtherExpr(kind) => Fail(Unsupported(kind))
  }

  /** `x` with the length of every array type removed: `[N]T` becomes `[]T`. */
  function AsSlices(x: Expr): (r: Expr)
    ensures Supported(r) <==> Supported(x)
  {
    match x
    case Ident(_) => x
    case SelectorExpr(y, sel) => SelectorExpr(AsSlices(y), sel)
    case StarExpr(y) => StarExpr(AsSlices(y))
    case ArrayType(_, e) => ArrayType(None, AsSlices(e))
    case MapType(k, v) => MapType(AsSlices(k), AsSlices(v))
    case OtherExpr(_) => x
  }

  /** The length of an array type never reaches the text: `[4]byte` and `[]byte`
      render alike. */
  lemma {:induction false} ArrayLengthIgnored(x: Expr)
    ensures ParseExpr(x) == ParseExpr(AsSlices(x))
  {
    match x
    case Ident(_) =>
    case SelectorExpr(y, _) => ArrayLengthIgnored(y);
    case StarExpr(y) => ArrayLengthIgnored(y);
    case ArrayType(_, e) => ArrayLengthIgnored(e);
    case MapType(k, v) => ArrayLengthIgnored(k); ArrayLengthIgnored(v);
    case OtherExpr(_) =>
  }

  // ---------------------------------------------------------------------------
  // Reading the rendered text back.

  /** Characters that may occur in a name: everything but the grammar's own
      punctuation. Every Go identifier consists of such characters. */
  predicate IsNameChar(c: char) {
    c != '*' && c != '[' && c != ']' && c != '.'
  }

  predicate IsName(s: string) {
    |s| > 0 && forall i :: 0 <= i < |s| ==> IsNameChar(s[i])
  }

  /** An identifier, or a selector chain `a.b.c` on top of one. */
  predicate IsQualified(x: Expr) {
    match x
    case Ident(_) => true
    case SelectorExpr(y, _) => IsQualified(y)
    case _ => false
  }

  /** The expressions go/parser can produce and the reader can give back: names
      are non-empty, a selector selects from a (qualified) name, arrays are
      slices, and no node is outside the grammar. */
  predicate Readable(x: Expr) {
    match x
    case Ident(n) => IsName(n)
    case SelectorExpr(y, sel) => IsQualified(y) && Readable(y) && IsName(sel)
    case StarExpr(y) => Readable(y)
    case ArrayType(len, e) => len.None? && Readable(e)
    case MapType(k, v) => Readable(k) && Readable(v)
    case OtherExpr(_) => false
  }

  /** The names of a qualified expression, outermost package first. */
  function QualNames(x: Expr): (ns: seq<string>)
    requires IsQualified(x)
    ensures |ns| > 0
  {
    match x
    case Ident(n) => [n]
    case SelectorExpr(y, sel) => QualNames(y) + [sel]
  }

  /** Builds the left-nested selector chain for a list of names. */
  function Qualify(ns: seq<string>): (x: Expr)
    requires |ns| > 0
    ensures IsQualified(x)
  {
    if |ns| == 1 then Ident(ns[0])
    else SelectorExpr(Qualify(ns[..|ns| - 1]), ns[|ns| - 1])
  }

  /** The longest prefix of `s` made of name characters. */
  function NamePrefix(s: string): (n: string)
    ensures n <= s
    ensures forall i :: 0 <= i < |n| ==> IsNameChar(n[i])
    ensures |n| < |s| ==> !IsNameChar(s[|n|])
  {
    if |s| > 0 && IsNameChar(s[0]) then [s[0]] + NamePrefix(s[1..]) else []
  }

  /** Reads `a.b.c` from the front of `s`, returning the names and the rest. */
  function ReadDotted(s: string): (r: (seq<string>, string))
    requires |s| > 0 && IsNameChar(s[0])
    ensures |r.0| > 0 && |r.1| < |s|
    decreases |s|
  {
    var n := NamePrefix(s);
    var rest := s[|n|..];
    if |rest| >= 2 && rest[0] == '.' && IsNameChar(rest[1]) then
      var (ns, tail) := ReadDotted(rest[1..]);
      ([n] + ns, tail)
    else
      ([n], rest)
  }

  /** Reads one type expression from the front of `s`; returns it with the
      unread rest, or `None` when `s` does not start with one. */
  function ReadType(s: string): (r: Option<(Expr, string)>)
    ensures r.Some? ==> |r.value.1| < |s|
    decreases |s|
  {
    if |s| == 0 then None
    else if s[0] == '*' then
      match ReadType(s[1..])
      case None => None
      case Some((x, rest)) => Some((StarExpr(x), rest))
    else if HasPrefix(s, "[]") then
      match ReadType(s[2..])
      case None => None
      case Some((x, rest)) => Some((ArrayType(None, x), rest))
    else if HasPrefix(s, "map[") then
      match ReadType(s[4..])
      case None => None
      case Some((k, rest)) =>
        if |rest| > 0 && rest[0] == ']' then
          match ReadType(rest[1..])
          case None => None
          case Some((v, tail)) => Some((MapType(k, v), tail))
        else None
    else if IsNameChar(s[0]) then
      var (ns, rest) := ReadDotted(s);
      Some((Qualify(ns), rest))
    else None
  }

  /** What may follow a rendered type inside a rendered type: nothing, or the
      bracket closing a map key. */
  predicate Delimited(t: string) {
    |t| == 0 || t[0] == ']'
  }

  lemma {:induction false} NamePrefixOf(n: string, u: string)
    requires forall i :: 0 <= i < |n| ==> IsNameChar(n[i])
    requires |u| == 0 || !IsNameChar(u[0])
    ensures NamePrefix(n + u) == n
  {
    if |n| > 0 {
      assert (n + u)[1..] == n[1..] + u;
      NamePrefixOf(n[1..], u);
    } else {
      assert n + u == u;
    }
  }

  /** A name followed by a dot, a closing bracket or nothing is not the start of
      a map type, even when the name is `map`. */
  lemma NotMapPrefix(n: string, u: string)
    requires IsName(n)
    requires |u| == 0 || u[0] == '.' || u[0] == ']'
    ensures !HasPrefix(n + u, "map[")
  {
    var s := n + u;
    if |s| >= 4 {
      if |n| > 3 {
        assert s[3] == n[3];
      } else {
        assert s[|n|] == u[0];
      }
    }
  }

  lemma ReadDottedLast(n: string, t: string)
    requires IsName(n) && Delimited(t)
    ensures |n + t| > 0 && IsNameChar((n + t)[0])
    ensures ReadDotted(n + t) == ([n], t)
  {
    assert (n + t)[0] == n[0];
    NamePrefixOf(n, t);
    assert (n + t)[|n|..] == t;
  }

  lemma ReadDottedNext(n: string, w: string, ns: seq<string>, t: string)
    requires IsName(n) && |w| > 0 && IsNameChar(w[0])
    requires ReadDotted(w) == (ns, t)
    ensures |n + "." + w| > 0 && IsNameChar((n + "." + w)[0])
    ensures ReadDotted(n + "." + w) == ([n] + ns, t)
  {
    DotSplit(n, w);
    NamePrefixOf(n, "." + w);
  }

  lemma DotSplit(n: string, w: string)
    requires |n| > 0 && |w| > 0
    ensures var s := n + "." + w;
      s == n + ("." + w) && s[0] == n[0] &&
      s[|n|..] == "." + w && s[|n|..][0] == '.' && s[|n|..][1] == w[0] && s[|n|..][1..] == w
  {
    var s := n + "." + w;
    assert s == n + ("." + w);
    assert s[|n|..] == "." + w;
  }

  lemma {:induction false} ReadDottedJoin(ns: seq<string>, t: string)
    requires |ns| > 0 && forall i :: 0 <= i < |ns| ==> IsName(ns[i])
    requires Delimited(t)
    ensures |Join(ns, ".") + t| > 0 && IsNameChar((Join(ns, ".") + t)[0])
    ensures ReadDotted(Join(ns, ".") + t) == (ns, t)
  {
    if |ns| == 1 {
      ReadDottedLast(ns[0], t);
      assert Join(ns, ".") == ns[0] && [ns[0]] == ns;
    } else {
      var tl := ns[1..];
      var w := Join(tl, ".") + t;
      assert forall i :: 0 <= i < |tl| ==> tl[i] == ns[i + 1];
      ReadDottedJoin(tl, t);
      JoinDotCons(ns, t);
      ReadDottedNext(ns[0], w, tl, t);
      assert [ns[0]] + tl == ns;
    }
  }

  lemma JoinDotCons(ns: seq<string>, t: string)
    requires |ns| > 1
    ensures Join(ns, ".") + t == ns[0] + "." + (Join(ns[1..], ".") + t)
  {
  }

  lemma {:induction false} RenderQualified(x: Expr)
    requires IsQualified(x) && Readable(x)
    ensures ParseExpr(x) == Ok(Join(QualNames(x), "."))
    ensures forall i :: 0 <= i < |QualNames(x)| ==> IsName(QualNames(x)[i])
  {
    match x
    case Ident(_) =>
    case SelectorExpr(y, sel) =>
      RenderQualified(y);
      JoinSnoc(QualNames(y), sel, ".");
  }

  lemma {:induction false} QualifyNames(x: Expr)
    requires IsQualified(x)
    ensures Qualify(QualNames(x)) == x
  {
    match x
    case Ident(_) =>
    case SelectorExpr(y, sel) =>
      var ns := QualNames(x);
      assert ns[..|ns| - 1] == QualNames(y);
      QualifyNames(y);
  }

  lemma {:induction false} ReadRendered(x: Expr, t: string)
    requires Readable(x) && Delimited(t)
    ensures ParseExpr(x).Ok? && ReadType(ParseExpr(x).value + t) == Some((x, t))
  {
    match x
    case Ident(_) =>
      ReadQualified(x, t);
    case SelectorExpr(_, _) =>
      ReadQualified(x, t);
    case StarExpr(y) =>
      ReadRendered(y, t);
      ReadStar(y, ParseExpr(y).value, t);
    case ArrayType(_, e) =>
      ReadRendered(e, t);
      ReadSlice(e, ParseExpr(e).value, t);
    case MapType(k, v) =>
      ReadRendered(v, t);
      ReadRendered(k, "]" + ParseExpr(v).value + t);
      ReadMap(k, ParseExpr(k).value, v, ParseExpr(v).value, t);
  }

  lemma ReadStar(y: Expr, ys: string, t: string)
    requires ReadType(ys + t) == Some((y, t))
    ensures ReadType("*" + ys + t) == Some((StarExpr(y), t))
  {
    PrefixParts("*", ys, t);
    ReadStarAt("*" + ys + t, y, t);
  }

  lemma ReadStarAt(s: string, y: Expr, t: string)
    requires |s| > 0 && s[0] == '*'
    requires ReadType(s[1..]) == Some((y, t))
    ensures ReadType(s) == Some((StarExpr(y), t))
  {
  }

  /** The text after a fixed opener is the rest of the text. */
  lemma PrefixParts(p: string, xs: string, t: string)
    ensures HasPrefix(p + xs + t, p)
    ensures |p + xs + t| >= |p| && (p + xs + t)[|p|..] == xs + t
    ensures |p| > 0 ==> (p + xs + t)[0] == p[0]
  {
    assert p + xs + t == p + (xs + t);
  }

  lemma ReadSlice(e: Expr, es: string, t: string)
    requires ReadType(es + t) == Some((e, t))
    ensures ReadType("[]" + es + t) == Some((ArrayType(None, e), t))
  {
    PrefixParts("[]", es, t);
    ReadSliceAt("[]" + es + t, e, t);
  }

  lemma ReadSliceAt(s: string, e: Expr, t: string)
    requires HasPrefix(s, "[]")
    requires ReadType(s[2..]) == Some((e, t))
    ensures ReadType(s) == Some((ArrayType(None, e), t))
  {
    assert s[0] == '[';
  }

  lemma ReadMapAt(s: string, k: Expr, rest: string, v: Expr, tail: string)
    requires HasPrefix(s, "map[")
    requires ReadType(s[4..]) == Some((k, rest))
    requires |rest| > 0 && rest[0] == ']'
    requires ReadType(rest[1..]) == Some((v, tail))
    ensures ReadType(s) == Some((MapType(k, v), tail))
  {
    assert s[0] == 'm';
  }

  lemma MapTextParts(ks: string, vs: string, t: string)
    ensures HasPrefix("map[" + ks + "]" + vs + t, "map[")
    ensures ("map[" + ks + "]" + vs + t)[4..] == ks + ("]" + vs + t)
    ensures ("]" + vs + t)[0] == ']' && ("]" + vs + t)[1..] == vs + t
  {
    var s := "map[" + ks + "]" + vs + t;
    assert s == "map[" + (ks + ("]" + vs + t));
  }

  lemma ReadMap(k: Expr, ks: string, v: Expr, vs: string, t: string)
    requires ReadType(ks + ("]" + vs + t)) == Some((k, "]" + vs + t))
    requires ReadType(vs + t) == Some((v, t))
    ensures ReadType("map[" + ks + "]" + vs + t) == Some((MapType(k, v), t))
  {
    MapTextParts(ks, vs, t);
    ReadMapAt("map[" + ks + "]" + vs + t, k, "]" + vs + t, v, t);
  }

  lemma ReadNameAt(s: string)
    requires |s| > 0 && IsNameChar(s[0]) && !HasPrefix(s, "map[")
    ensures ReadType(s) == Some((Qualify(ReadDotted(s).0), ReadDotted(s).1))
  {
    assert s[0] != '*' && !HasPrefix(s, "[]");
  }

  lemma QualifiedText(x: Expr, t: string)
    requires IsQualified(x) && Readable(x) && Delimited(t)
    ensures ParseExpr(x).Ok?
    ensures var s := ParseExpr(x).value + t;
      |s| > 0 && IsNameChar(s[0]) && !HasPrefix(s, "map[") && ReadDotted(s) == (QualNames(x), t)
  {
    RenderQualified(x);
    ReadDottedJoin(QualNames(x), t);
    JoinNotMap(QualNames(x), t);
  }

  lemma JoinNotMap(ns: seq<string>, t: string)
    requires |ns| > 0 && forall i :: 0 <= i < |ns| ==> IsName(ns[i])
    requires Delimited(t)
    ensures !HasPrefix(Join(ns, ".") + t, "map[")
  {
    var n := ns[0];
    assert IsName(n);
    if |ns| == 1 {
      NotMapPrefix(n, t);
    } else {
      var w := Join(ns[1..], ".");
      var u := "." + (w + t);
      assert Join(ns, ".") == n + "." + w;
      ConcatDot(n, w, t);
      NotMapPrefix(n, u);
    }
  }

  lemma ConcatDot(a: string, b: string, t: string)
    ensures (a + "." + b) + t == a + ("." + (b + t))
    ensures ("." + (b + t))[0] == '.'
  {
  }

  lemma ReadQualified(x: Expr, t: string)
    requires IsQualified(x) && Readable(x) && Delimited(t)
    ensures ParseExpr(x).Ok? && ReadType(ParseExpr(x).value + t) == Some((x, t))
  {
    QualifiedText(x, t);
    ReadNameAt(ParseExpr(x).value + t);
    QualifyNames(x);
  }

  /** Rendering is invertible on readable expressions: reading the text back
      yields the expression and consumes all of it. */
  lemma RoundTrip(x: Expr)
    requires Readable(x)
    ensures ParseExpr(x).Ok?
    ensures ReadType(ParseExpr(x).value) == Some((x, ""))
  {
    ReadRendered(x, "");
    assert ParseExpr(x).value + "" == ParseExpr(x).value;
  }
}
