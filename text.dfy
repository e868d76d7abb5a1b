/** The handful of Python string operations the converter relies on:
    `str.strip()`, `str.strip(chars)`, `str.split("|")` and `str.startswith`.
    Whitespace is the set of characters `str.isspace()` accepts, which is
    what `str.strip()` removes and what `\s` matches in a `str` pattern. */
module Text {

  /** `c.isspace()`: U+0009..U+000D, U+001C..U+001F, the space, U+0085,
      U+00A0, U+1680, U+2000..U+200A, U+2028, U+2029, U+202F, U+205F, U+3000. */
  predicate PythonSpace(c: char) {
    ('\t' <= c <= '\r') || ('\U{1C}' <= c <= ' ') || c == '\U{85}' || c == '\U{A0}'
    || c == '\U{1680}' || ('\U{2000}' <= c <= '\U{200A}') || c == '\U{2028}' || c == '\U{2029}'
    || c == '\U{202F}' || c == '\U{205F}' || c == '\U{3000}'
  }

  /** Characters removed by `str.strip()` with no argument. */
  const Whitespace: set<char> := set c: char | '\t' <= c <= '\U{3000}' && PythonSpace(c)

  /** Characters removed by `cell.strip(" *")` on a table header cell. */
  const SpaceOrStar: set<char> := {' ', '*'}

  predicate IsSpace(c: char) {
    c in Whitespace
  }

  predicate AllIn(s: string, cs: set<char>) {
    forall k :: 0 <= k < |s| ==> s[k] in cs
  }

  /** Every character of `s[lo..hi]` is in `cs`, stated on indices of `s`. */
  predicate AllInRange(s: string, cs: set<char>, lo: nat, hi: nat)
    requires lo <= hi <= |s|
  {
    forall k :: lo <= k < hi ==> s[k] in cs
  }

  /** Index of the first character of `s` at or after `i` that is not in `cs`. */
  function SkipLeft(s: string, cs: set<char>, i: nat): (j: nat)
    requires i <= |s|
    ensures i <= j <= |s|
    ensures AllInRange(s, cs, i, j)
    ensures j < |s| ==> s[j] !in cs
    decreases |s| - i
  {
    if i == |s| || s[i] !in cs then i else SkipLeft(s, cs, i + 1)
  }

  /** One past the index of the last character of `s[lo..j]` that is not in `cs`. */
  function SkipRight(s: string, cs: set<char>, lo: nat, j: nat): (k: nat)
    requires lo <= j <= |s|
    ensures lo <= k <= j
    ensures AllInRange(s, cs, k, j)
    ensures k > lo ==> s[k - 1] !in cs
    decreases j
  {
    if j == lo || s[j - 1] !in cs then j else SkipRight(s, cs, lo, j - 1)
  }

  /** `s.strip(chars)`: drop the longest prefix and suffix made of `cs`. */
  function StripSet(s: string, cs: set<char>): (r: string)
    ensures exists i, j :: 0 <= i <= j <= |s| && r == s[i..j] && AllInRange(s, cs, 0, i) && AllInRange(s, cs, j, |s|)
    ensures r != [] ==> r[0] !in cs && r[|r| - 1] !in cs
    ensures r == [] <==> AllIn(s, cs)
  {
    var i := SkipLeft(s, cs, 0);
    var j := SkipRight(s, cs, i, |s|);
    assert i == j ==> AllIn(s, cs) by {
      if i == j {
        forall k | 0 <= k < |s| ensures s[k] in cs {
          if k >= j { assert AllInRange(s, cs, j, |s|); } else { assert AllInRange(s, cs, 0, i); }
        }
      }
    }
    s[i..j]
  }

  /** `s.strip()`. That the result is the slice of `s` left between its
      leading and trailing whitespace is stated by `StripIsSlice`. */
  function Strip(s: string): (r: string)
    ensures |r| <= |s|
    ensures r != [] ==> !IsSpace(r[0]) && !IsSpace(r[|r| - 1])
    ensures r == [] <==> AllIn(s, Whitespace)
  {
    StripSet(s, Whitespace)
  }

  /** The stripped line is a slice of the line with only whitespace cut off
      at either end. */
  lemma StripIsSlice(s: string)
    ensures exists i, j :: 0 <= i <= j <= |s| && Strip(s) == s[i..j]
                           && AllInRange(s, Whitespace, 0, i) && AllInRange(s, Whitespace, j, |s|)
  {
    assert Strip(s) == StripSet(s, Whitespace);
  }

  /** A string with no stripped characters at either end is its own strip. */
  lemma {:induction false} StripSetFixed(s: string, cs: set<char>)
    requires s != [] ==> s[0] !in cs && s[|s| - 1] !in cs
    ensures StripSet(s, cs) == s
  {
    var i := SkipLeft(s, cs, 0);
    var j := SkipRight(s, cs, i, |s|);
    if s != [] {
      assert i == 0;
      assert j == |s|;
    }
  }

  /** Stripping is idempotent: `s.strip().strip() == s.strip()`. */
  lemma {:induction false} StripIdempotent(s: string)
    ensures Strip(Strip(s)) == Strip(s)
  {
    StripSetFixed(Strip(s), Whitespace);
  }

  predicate StartsWith(s: string, prefix: string) {
    |prefix| <= |s| && s[..|prefix|] == prefix
  }

  /** `s.split(sep)` for a one-character separator. */
  function Split(s: string, sep: char): (pieces: seq<string>)
    ensures |pieces| >= 1
    ensures forall p :: p in pieces ==> sep !in p
    decreases |s|
  {
    if s == [] then [""]
    else
      var rest := Split(s[1..], sep);
      if s[0] == sep then [""] + rest
      else [[s[0]] + rest[0]] + rest[1..]
  }

  /** `sep.join(pieces)` */
  function Join(pieces: seq<string>, sep: char): string
    requires |pieces| >= 1
    decreases |pieces|
  {
    if |pieces| == 1 then pieces[0] else pieces[0] + [sep] + Join(pieces[1..], sep)
  }

  /** Splitting loses nothing: joining the pieces with the separator gives the string back. */
  lemma {:induction false} JoinSplit(s: string, sep: char)
    ensures Join(Split(s, sep), sep) == s
    decreases |s|
  {
    if s != [] {
      JoinSplit(s[1..], sep);
      var rest := Split(s[1..], sep);
      if s[0] == sep {
        assert Split(s, sep)[1..] == rest;
      } else {
        var pieces := Split(s, sep);
        if |rest| == 1 {
          assert pieces == [[s[0]] + rest[0]];
        } else {
          assert pieces[1..] == rest[1..];
          assert Join(rest, sep) == rest[0] + [sep] + Join(rest[1..], sep);
        }
      }
    }
  }

  function Count(s: string, c: char): nat {
    if s == [] then 0 else (if s[0] == c then 1 else 0) + Count(s[1..], c)
  }

  /** There is one more piece than there are separators. */
  lemma {:induction false} SplitCount(s: string, sep: char)
    ensures |Split(s, sep)| == Count(s, sep) + 1
    decreases |s|
  {
    if s != [] {
      SplitCount(s[1..], sep);
    }
  }
}
