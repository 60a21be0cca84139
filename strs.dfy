/** The few functions of Go's `strings` package and `go/ast` that the generator
    relies on, over `string` = `seq<char>`. */
module Strs {

  /** strings.HasPrefix */
  predicate HasPrefix(s: string, prefix: string) {
    prefix <= s
  }

  /** strings.HasSuffix */
  predicate HasSuffix(s: string, suffix: string) {
    |suffix| <= |s| && s[|s| - |suffix|..] == suffix
  }

  /** strings.TrimPrefix: drops `prefix` once when `s` starts with it. */
  function TrimPrefix(s: string, prefix: string): (r: string)
    ensures HasPrefix(s, prefix) ==> s == prefix + r
    ensures !HasPrefix(s, prefix) ==> r == s
  {
    if HasPrefix(s, prefix) then s[|prefix|..] else s
  }

  /** TrimPrefix(r, "*") == s holds exactly for `*s`, and for `s` itself when `s`
      does not start with a star: at most one star is removed. */
  lemma TrimStarIff(r: string, s: string)
    ensures TrimPrefix(r, "*") == s <==> r == "*" + s || (r == s && !HasPrefix(s, "*"))
  {
    if HasPrefix(r, "*") {
      assert r == "*" + r[1..];
      if r == s {
        assert HasPrefix(s, "*");
      }
    }
  }

  /** strings.Join */
  function Join(xs: seq<string>, sep: string): (r: string)
    ensures |xs| == 0 ==> r == ""
    ensures |xs| == 1 ==> r == xs[0]
    ensures |xs| > 0 ==> HasPrefix(r, xs[0])
  {
    if |xs| == 0 then ""
    else if |xs| == 1 then xs[0]
    else xs[0] + sep + Join(xs[1..], sep)
  }

  /** Appending an element to a non-empty list appends the separator and the element. */
  lemma {:induction false} JoinSnoc(xs: seq<string>, x: string, sep: string)
    requires |xs| > 0
    ensures Join(xs + [x], sep) == Join(xs, sep) + sep + x
  {
    if |xs| > 1 {
      assert (xs + [x])[1..] == xs[1..] + [x];
      JoinSnoc(xs[1..], x, sep);
    }
  }

  /** An upper-case letter, as unicode.IsUpper decides it for ASCII. */
  predicate IsUpper(c: char) {
    'A' <= c <= 'Z'
  }

  /** go/ast.IsExported: the first character is an upper-case letter
      (section "Exported identifiers" of the Go Programming Language Specification). */
  predicate IsExported(name: string) {
    |name| > 0 && IsUpper(name[0])
  }
}
