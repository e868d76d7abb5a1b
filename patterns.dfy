/** The line classifiers of `create_docx`: the code-fence test and the three
    regular expressions `section_header_pattern`, `subheading_pattern` and
    `table_line_pattern`, each written out as the match Python's `re.match`
    finds. Lines come from `str.splitlines`, so they never hold a line feed;
    the model lets `.` match every character and `$` match only at the end. */
module Patterns {
  import opened Wrappers
  import opened Text

  predicate IsDigit(c: char) {
    '0' <= c <= '9'
  }

  /** `line.startswith("```")` */
  predicate IsFence(line: string) {
    StartsWith(line, "```")
  }

  /** `^\|(.+?)\|$`: a bar, at least one character, and a bar that ends the line. */
  predicate IsTableRow(line: string) {
    |line| >= 3 && line[0] == '|' && line[|line| - 1] == '|'
  }

  /** `(\d{1,2})\.` starting at `p`: the index just past the dot. */
  function NumberDot(s: string, p: nat): (q: Option<nat>)
    requires p <= |s|
    ensures q.Some? ==> p + 2 <= q.value <= p + 3 && q.value <= |s| && s[q.value - 1] == '.'
    ensures q.Some? ==> forall k :: p <= k < q.value - 1 ==> IsDigit(s[k])
    ensures q.Some? <==> p < |s| && IsDigit(s[p])
                         && ((p + 1 < |s| && s[p + 1] == '.')
                             || (p + 2 < |s| && IsDigit(s[p + 1]) && s[p + 2] == '.'))
  {
    if p < |s| && IsDigit(s[p]) then
      if p + 1 < |s| && s[p + 1] == '.' then Some(p + 2)
      else if p + 2 < |s| && IsDigit(s[p + 1]) && s[p + 2] == '.' then Some(p + 3)
      else None
    else None
  }

  /** Index of the first `c` in `s` at or after `i`, or `|s|` when there is none. */
  function Find(s: string, c: char, i: nat): (j: nat)
    requires i <= |s|
    ensures i <= j <= |s|
    ensures j < |s| ==> s[j] == c
    ensures forall k :: i <= k < j ==> s[k] != c
    decreases |s| - i
  {
    if i == |s| || s[i] == c then i else Find(s, c, i + 1)
  }

  /** Where the match of `^\s*(\d{1,2})\.\s*(.+?)(:|$)` ends, if the line matches.
      The lazy group takes the first character after the spaces that follow the
      dot, then stops at the first colon after it (kept in the match) or at the
      end of the line. When only spaces follow the dot, `\s*` gives one back. */
  function SectionEnd(s: string): Option<nat>
  {
    var p := SkipLeft(s, Whitespace, 0);
    match NumberDot(s, p)
    case None => None
    case Some(q) =>
      if q == |s| then None
      else
        var w := SkipLeft(s, Whitespace, q);
        if w == |s| then Some(|s|)
        else
          var c := Find(s, ':', w + 1);
          if c < |s| then Some(c + 1) else Some(|s|)
  }

  /** `r` is a possible `group(0)` when the lazy group `(.+?)` starts at `w`, past
      the spaces after the dot: it takes the character at `w` whatever it is,
      then stops at the first colon after it, or at the end of the line. */
  ghost predicate LabelFits(s: string, w: nat, r: string) {
    r != [] && StartsWith(s, r) && w <= |s|
    && (w == |s| ==> r == s)
    && (w < |s| ==> w + 1 < |r| || r == s)
    && (forall k :: w < k < |r| - 1 ==> s[k] != ':')
    && ((exists k :: w < k < |s| && s[k] == ':') ==> r[|r| - 1] == ':')
    && ((forall k :: w < k < |s| ==> s[k] != ':') ==> r == s)
  }

  /** At most one label fits: the lazy group's stopping point is determined. */
  lemma LabelFitsUnique(s: string, w: nat, r1: string, r2: string)
    requires LabelFits(s, w, r1) && LabelFits(s, w, r2)
    ensures r1 == r2
  {
    if w < |s| && exists k :: w < k < |s| && s[k] == ':' {
      var c := Find(s, ':', w + 1);
      assert c < |s|;
      LabelEndsAtColon(s, w, r1, c);
      LabelEndsAtColon(s, w, r2, c);
      assert r1 == s[..c + 1] == r2;
    }
  }

  /** When a colon follows `w`, a fitting label ends just past the first one. */
  lemma LabelEndsAtColon(s: string, w: nat, r: string, c: nat)
    requires LabelFits(s, w, r) && w < c < |s| && s[c] == ':'
    requires forall k :: w < k < c ==> s[k] != ':'
    ensures r == s[..c + 1]
  {
    assert r[|r| - 1] == ':';
    if r == s {
      assert |r| - 1 == c;
    } else {
      assert w + 1 < |r|;
      assert s[|r| - 1] == ':';
      assert |r| - 1 == c;
    }
  }

  /** `section_header_pattern.match(line).group(0)`, or None when it does not match. */
  function SectionLabel(s: string): (r: Option<string>)
    ensures r.Some? ==> StartsWith(s, r.value) && r.value != []
    ensures r.Some? ==> r.value == s || r.value[|r.value| - 1] == ':'
    ensures r.Some? <==> (var p := SkipLeft(s, Whitespace, 0);
                          NumberDot(s, p).Some? && NumberDot(s, p).value < |s|)
    ensures r.Some? ==>
      LabelFits(s, SkipLeft(s, Whitespace, NumberDot(s, SkipLeft(s, Whitespace, 0)).value), r.value)
  {
    match SectionEnd(s)
    case None => None
    case Some(e) => Some(s[..e])
  }

  /** Index just past the run of digits starting at `i`. */
  function SkipDigits(s: string, i: nat): (j: nat)
    requires i <= |s|
    ensures i <= j <= |s|
    ensures forall k :: i <= k < j ==> IsDigit(s[k])
    ensures j < |s| ==> !IsDigit(s[j])
    decreases |s| - i
  {
    if i == |s| || !IsDigit(s[i]) then i else SkipDigits(s, i + 1)
  }

  /** `^\s*(\d{1,2})\.(\d+)\s+(.+)`: a number, a dot, more digits, whitespace,
      and at least one further character. */
  predicate IsSubheading(s: string) {
    var p := SkipLeft(s, Whitespace, 0);
    match NumberDot(s, p)
    case None => false
    case Some(q) =>
      var d := SkipDigits(s, q);
      d > q && d + 1 < |s| && IsSpace(s[d])
  }

  /** Every sub-heading line is also a section line, and the section test comes
      first, so `add_subheading` is never reached. */
  lemma SubheadingIsSection(s: string)
    requires IsSubheading(s)
    ensures SectionLabel(s).Some?
  {
  }

  /** On a stripped line without a colon past the number, the label is the whole line. */
  lemma {:induction false} SectionLabelWholeLine(s: string, q: nat)
    requires Strip(s) == s
    requires NumberDot(s, 0) == Some(q) && q < |s|
    requires forall k :: q < k < |s| ==> s[k] != ':'
    ensures SectionLabel(s) == Some(s)
  {
    if s != [] {
      assert !IsSpace(s[0]);
    }
    var w := SkipLeft(s, Whitespace, q);
    if w < |s| {
      var c := Find(s, ':', w + 1);
      assert c == |s|;
    }
  }

  /** "1. A: b": the label stops at the colon and the rest is lost. */
  lemma ColonEndsLabel()
    ensures SectionLabel("1. A: b") == Some("1. A:")
  {
    var s := "1. A: b";
    assert SkipLeft(s, Whitespace, 0) == 0;
    assert NumberDot(s, 0) == Some(2);
    assert SkipLeft(s, Whitespace, 2) == 3;
    assert Find(s, ':', 4) == 4;
    assert SectionEnd(s) == Some(5);
    assert s[..5] == "1. A:";
  }

  /** A colon right after the spaces is the lazy group's first character, so
      it does not end the label: "1. :ab" is its own label. */
  lemma LeadingColonKept()
    ensures SectionLabel("1. :ab") == Some("1. :ab")
  {
    var s := "1. :ab";
    assert SkipLeft(s, Whitespace, 0) == 0;
    assert NumberDot(s, 0) == Some(2);
    assert SkipLeft(s, Whitespace, 2) == 3;
    assert Find(s, ':', 4) == 6;
    assert s[..6] == s;
  }
}
