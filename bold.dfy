/** `add_paragraph`: one line of text becomes alternating plain and bold runs,
    one bold run per match of `\*\*(.+?)\*\*` that `re.finditer` reports. */
module Bold {
  import opened Wrappers

  /** One run of a paragraph: its text and whether `run.bold` is set. */
  datatype Span = Span(text: string, bold: bool)

  /** Two asterisks start at index `i`. */
  predicate PairAt(t: string, i: int) {
    0 <= i && i + 2 <= |t| && t[i] == '*' && t[i + 1] == '*'
  }

  /** The first index at or after `c` where two asterisks start. */
  function CloseFrom(t: string, c: nat): (r: Option<nat>)
    ensures r.Some? ==> c <= r.value && PairAt(t, r.value)
    ensures forall k :: c <= k && (r.Some? ==> k < r.value) ==> !PairAt(t, k)
    decreases |t| - c
  {
    if c + 2 > |t| then None
    else if PairAt(t, c) then Some(c)
    else CloseFrom(t, c + 1)
  }

  /** The end of the match of `\*\*(.+?)\*\*` that starts at `i`, if any: the
      inner group takes at least one character and then stops at the first
      closing pair, so the closing pair is the first one at or after `i + 3`. */
  function MatchAt(t: string, i: nat): (r: Option<nat>)
    ensures r.Some? ==> PairAt(t, i) && i + 5 <= r.value <= |t| && PairAt(t, r.value - 2)
  {
    if PairAt(t, i) then
      match CloseFrom(t, i + 3)
      case Some(c) => Some(c + 2)
      case None => None
    else None
  }

  /** A match starts at `i` exactly when a pair starts there and another pair
      starts at least three characters later; it ends after the first such pair. */
  lemma MatchAtSpec(t: string, i: nat)
    ensures MatchAt(t, i).None? ==> !PairAt(t, i) || forall c :: i + 3 <= c ==> !PairAt(t, c)
    ensures MatchAt(t, i).Some? ==> forall c :: i + 3 <= c < MatchAt(t, i).value - 2 ==> !PairAt(t, c)
  {
  }

  /** The next match `re.finditer` reports when its search resumes at `from`:
      the leftmost start at or after `from`, as (start, end). */
  function NextMatch(t: string, from: nat): (r: Option<(nat, nat)>)
    ensures r.Some? ==> from <= r.value.0 && MatchAt(t, r.value.0) == Some(r.value.1)
    ensures r.Some? ==> r.value.0 + 5 <= r.value.1 <= |t|
    decreases |t| - from
  {
    if from >= |t| then None
    else
      match MatchAt(t, from)
      case Some(e) => Some((from, e))
      case None => NextMatch(t, from + 1)
  }

  /** The search finds the leftmost match: no match starts between `from` and
      the one reported, and none at all when nothing is reported. */
  lemma {:induction false} NextMatchLeftmost(t: string, from: nat, i: nat)
    requires from <= i
    requires NextMatch(t, from).Some? ==> i < NextMatch(t, from).value.0
    ensures MatchAt(t, i).None?
    decreases |t| - from
  {
    if from < |t| && MatchAt(t, from).None? && from < i {
      NextMatchLeftmost(t, from + 1, i);
    }
  }

  /** `ms` lists matches in `t` in order, none before `from`, each one at
      least five characters long, opening and closing with a pair of asterisks. */
  predicate InOrder(t: string, from: nat, ms: seq<(nat, nat)>)
    decreases |ms|
  {
    ms == [] ||
    (from <= ms[0].0 && ms[0].0 + 5 <= ms[0].1 <= |t|
     && PairAt(t, ms[0].0) && PairAt(t, ms[0].1 - 2)
     && InOrder(t, ms[0].1, ms[1..]))
  }

  /** Every listed match fits in `t` and is at least five characters long. */
  predicate Bounded(t: string, ms: seq<(nat, nat)>) {
    forall k :: 0 <= k < |ms| ==> ms[k].0 + 5 <= ms[k].1 <= |t|
  }

  /** All matches `re.finditer` yields once its search stands at `from`, in order. */
  function Matches(t: string, from: nat): (r: seq<(nat, nat)>)
    ensures InOrder(t, from, r) && Bounded(t, r)
    decreases |t| - from
  {
    match NextMatch(t, from)
    case None => []
    case Some((s, e)) => [(s, e)] + Matches(t, e)
  }

  /** Each listed match is a real one: `MatchAt` reports it. */
  lemma {:induction false} MatchesAreMatches(t: string, from: nat, k: nat)
    requires k < |Matches(t, from)|
    ensures MatchAt(t, Matches(t, from)[k].0) == Some(Matches(t, from)[k].1)
    decreases |t| - from
  {
    var s, e := NextMatch(t, from).value.0, NextMatch(t, from).value.1;
    assert Matches(t, from) == [(s, e)] + Matches(t, e);
    if k > 0 {
      MatchesAreMatches(t, e, k - 1);
    }
  }

  /** The runs `add_paragraph` adds from `cursor` on, given the matches left. */
  function RunsOf(t: string, cursor: nat, ms: seq<(nat, nat)>): seq<Span>
    requires cursor <= |t| && InOrder(t, cursor, ms)
    decreases |ms|
  {
    if ms == [] then [Span(t[cursor..], false)]
    else
      var s, e := ms[0].0, ms[0].1;
      [Span(t[cursor..s], false), Span(t[s + 2..e - 2], true)] + RunsOf(t, e, ms[1..])
  }

  /** The runs of the paragraph `add_paragraph(doc, t)` adds. */
  function BoldRuns(t: string): seq<Span> {
    RunsOf(t, 0, Matches(t, 0))
  }

  /** One match more: the search resumes at its end. */
  lemma RunsStep(t: string, cursor: nat, s: nat, e: nat)
    requires cursor <= |t|
    requires NextMatch(t, cursor) == Some((s, e))
    ensures cursor <= s && s + 5 <= e <= |t|
    ensures RunsOf(t, cursor, Matches(t, cursor))
         == [Span(t[cursor..s], false), Span(t[s + 2..e - 2], true)] + RunsOf(t, e, Matches(t, e))
  {
    var ms := Matches(t, cursor);
    assert ms == [(s, e)] + Matches(t, e);
    assert ms[1..] == Matches(t, e);
  }

  /** One turn of `add_paragraph`'s loop keeps the runs added so far, followed by
      the runs still to come, equal to the paragraph's runs. */
  lemma LoopStep(t: string, cursor: nat, s: nat, e: nat, runs: seq<Span>)
    requires cursor <= |t|
    requires NextMatch(t, cursor) == Some((s, e))
    requires runs + RunsOf(t, cursor, Matches(t, cursor)) == BoldRuns(t)
    ensures cursor <= s && s + 5 <= e <= |t|
    ensures runs + [Span(t[cursor..s], false)] + [Span(t[s + 2..e - 2], true)]
            + RunsOf(t, e, Matches(t, e)) == BoldRuns(t)
  {
    RunsStep(t, cursor, s, e);
    var a, b := Span(t[cursor..s], false), Span(t[s + 2..e - 2], true);
    var rest := RunsOf(t, e, Matches(t, e));
    Regroup(runs, a, b, rest);
  }

  lemma Regroup(runs: seq<Span>, a: Span, b: Span, rest: seq<Span>)
    ensures runs + [a] + [b] + rest == runs + ([a, b] + rest)
  {
  }

  /** No match left: the rest of the text is one plain run. */
  lemma RunsDone(t: string, cursor: nat, runs: seq<Span>)
    requires cursor <= |t|
    requires NextMatch(t, cursor).None?
    requires runs + RunsOf(t, cursor, Matches(t, cursor)) == BoldRuns(t)
    ensures runs + [Span(t[cursor..], false)] == BoldRuns(t)
  {
  }

  /** `add_paragraph`'s loop: for each match, the plain text since the cursor,
      then the inner group as a bold run; after the last match, the rest. */
  method SplitBold(text: string) returns (runs: seq<Span>)
    ensures runs == BoldRuns(text)
  {
    var cursor := 0;
    runs := [];
    assert runs + BoldRuns(text) == BoldRuns(text);
    var m := NextMatch(text, cursor);
    while m.Some?
      invariant cursor <= |text|
      invariant m == NextMatch(text, cursor)
      invariant runs + RunsOf(text, cursor, Matches(text, cursor)) == BoldRuns(text)
      decreases |text| - cursor
    {
      var start, end := m.value.0, m.value.1;
      LoopStep(text, cursor, start, end, runs);
      runs := runs + [Span(text[cursor..start], false)];
      runs := runs + [Span(text[start + 2..end - 2], true)];
      cursor := end;
      m := NextMatch(text, cursor);
    }
    RunsDone(text, cursor, runs);
    runs := runs + [Span(text[cursor..], false)];
  }

  /** The paragraph written back as markup: bold runs between `**` pairs. */
  function Markup(runs: seq<Span>): string {
    if runs == [] then ""
    else (if runs[0].bold then "**" + runs[0].text + "**" else runs[0].text) + Markup(runs[1..])
  }

  /** The text a reader sees: all runs concatenated. */
  function Plain(runs: seq<Span>): string {
    if runs == [] then "" else runs[0].text + Plain(runs[1..])
  }

  lemma {:induction false} MarkupAppend(a: seq<Span>, b: seq<Span>)
    ensures Markup(a + b) == Markup(a) + Markup(b)
  {
    if a != [] {
      assert (a + b)[1..] == a[1..] + b;
      MarkupAppend(a[1..], b);
    } else {
      assert a + b == b;
    }
  }

  lemma {:induction false} PlainAppend(a: seq<Span>, b: seq<Span>)
    ensures Plain(a + b) == Plain(a) + Plain(b)
  {
    if a != [] {
      assert (a + b)[1..] == a[1..] + b;
      PlainAppend(a[1..], b);
    } else {
      assert a + b == b;
    }
  }

  lemma MarkupPair(plain: string, bold: string)
    ensures Markup([Span(plain, false), Span(bold, true)]) == plain + "**" + bold + "**"
  {
    assert [Span(plain, false), Span(bold, true)][1..] == [Span(bold, true)];
    assert [Span(bold, true)][1..] == [];
    assert Markup([Span(bold, true)]) == "**" + bold + "**";
  }

  lemma PlainPair(plain: string, bold: string)
    ensures Plain([Span(plain, false), Span(bold, true)]) == plain + bold
  {
    assert [Span(plain, false), Span(bold, true)][1..] == [Span(bold, true)];
    assert [Span(bold, true)][1..] == [];
    assert Plain([Span(bold, true)]) == bold;
  }

  lemma SliceAroundMatch(t: string, cursor: nat, s: nat, e: nat)
    requires cursor <= s && s + 5 <= e <= |t|
    requires PairAt(t, s) && PairAt(t, e - 2)
    ensures t[cursor..] == t[cursor..s] + "**" + t[s + 2..e - 2] + "**" + t[e..]
  {
    assert t[s..s + 2] == "**" && t[e - 2..e] == "**";
    assert t[cursor..] == t[cursor..s] + t[s..s + 2] + t[s + 2..e - 2] + t[e - 2..e] + t[e..];
  }

  /** Round trip: putting the `**` pairs back around the bold runs restores the text. */
  lemma {:induction false} MarkupRunsOf(t: string, cursor: nat, ms: seq<(nat, nat)>)
    requires cursor <= |t| && InOrder(t, cursor, ms)
    ensures Markup(RunsOf(t, cursor, ms)) == t[cursor..]
    decreases |ms|
  {
    if ms == [] {
      assert [Span(t[cursor..], false)][1..] == [];
    } else {
      var s, e := ms[0].0, ms[0].1;
      var head, rest := [Span(t[cursor..s], false), Span(t[s + 2..e - 2], true)], RunsOf(t, e, ms[1..]);
      calc {
        Markup(RunsOf(t, cursor, ms));
        Markup(head + rest);
        { MarkupAppend(head, rest); }
        Markup(head) + Markup(rest);
        { MarkupPair(t[cursor..s], t[s + 2..e - 2]); MarkupRunsOf(t, e, ms[1..]); }
        t[cursor..s] + "**" + t[s + 2..e - 2] + "**" + t[e..];
        { SliceAroundMatch(t, cursor, s, e); }
        t[cursor..];
      }
    }
  }

  lemma BoldRunsRoundTrip(t: string)
    ensures Markup(BoldRuns(t)) == t
  {
    MarkupRunsOf(t, 0, Matches(t, 0));
  }

  /** There is one bold run per match, between two plain runs. */
  lemma {:induction false} RunsOfCount(t: string, cursor: nat, ms: seq<(nat, nat)>)
    requires cursor <= |t| && InOrder(t, cursor, ms)
    ensures |RunsOf(t, cursor, ms)| == 2 * |ms| + 1
    decreases |ms|
  {
    if ms != [] {
      RunsOfCount(t, ms[0].1, ms[1..]);
    }
  }

  /** The runs alternate plain, bold, ..., plain. */
  lemma {:induction false} RunsOfAlternate(t: string, cursor: nat, ms: seq<(nat, nat)>, k: nat)
    requires cursor <= |t| && InOrder(t, cursor, ms)
    requires k < |RunsOf(t, cursor, ms)|
    ensures RunsOf(t, cursor, ms)[k].bold <==> k % 2 == 1
    decreases |ms|
  {
    if ms != [] && k >= 2 {
      RunsOfAlternate(t, ms[0].1, ms[1..], k - 2);
    }
  }

  /** The k-th bold run is the inner group of the k-th match. */
  lemma {:induction false} RunsOfBoldText(t: string, cursor: nat, ms: seq<(nat, nat)>, k: nat)
    requires cursor <= |t| && InOrder(t, cursor, ms) && Bounded(t, ms)
    requires k < |ms|
    ensures 2 * k + 1 < |RunsOf(t, cursor, ms)|
    ensures RunsOf(t, cursor, ms)[2 * k + 1] == Span(t[ms[k].0 + 2..ms[k].1 - 2], true)
    decreases |ms|
  {
    if k > 0 {
      RunsOfBoldText(t, ms[0].1, ms[1..], k - 1);
    }
  }

  /** `add_paragraph` adds one bold run per match of `re.finditer`, with a
      plain run before each and one after the last. */
  lemma BoldRunsCount(t: string)
    ensures |BoldRuns(t)| == 2 * |Matches(t, 0)| + 1
  {
    RunsOfCount(t, 0, Matches(t, 0));
  }

  /** The runs alternate plain, bold, ..., plain. */
  lemma BoldRunsAlternate(t: string)
    ensures forall k :: 0 <= k < |BoldRuns(t)| ==> (BoldRuns(t)[k].bold <==> k % 2 == 1)
  {
    forall k | 0 <= k < |BoldRuns(t)| ensures BoldRuns(t)[k].bold <==> k % 2 == 1 {
      RunsOfAlternate(t, 0, Matches(t, 0), k);
    }
  }

  /** The k-th bold run is the inner group of the k-th match. */
  lemma BoldRunsInner(t: string)
    ensures forall k :: 0 <= k < |Matches(t, 0)| ==>
      2 * k + 1 < |BoldRuns(t)| && BoldRuns(t)[2 * k + 1].text == t[Matches(t, 0)[k].0 + 2..Matches(t, 0)[k].1 - 2]
  {
    var ms := Matches(t, 0);
    forall k | 0 <= k < |ms|
      ensures 2 * k + 1 < |BoldRuns(t)| && BoldRuns(t)[2 * k + 1].text == t[ms[k].0 + 2..ms[k].1 - 2]
    {
      RunsOfBoldText(t, 0, ms, k);
    }
  }

  /** Each bold run is four characters shorter than its match: the reader's
      text is the input less four asterisks per match. */
  lemma {:induction false} PlainRunsOfLength(t: string, cursor: nat, ms: seq<(nat, nat)>)
    requires cursor <= |t| && InOrder(t, cursor, ms)
    ensures |Plain(RunsOf(t, cursor, ms))| == |t| - cursor - 4 * |ms|
    decreases |ms|
  {
    if ms == [] {
      assert [Span(t[cursor..], false)][1..] == [];
    } else {
      var s, e := ms[0].0, ms[0].1;
      PlainRunsOfLength(t, e, ms[1..]);
      PlainAppend([Span(t[cursor..s], false), Span(t[s + 2..e - 2], true)], RunsOf(t, e, ms[1..]));
      PlainPair(t[cursor..s], t[s + 2..e - 2]);
    }
  }

  lemma BoldRunsPlainLength(t: string)
    ensures |Plain(BoldRuns(t))| == |t| - 4 * |Matches(t, 0)|
  {
    PlainRunsOfLength(t, 0, Matches(t, 0));
  }

  /** Unfolds `RunsOf` once at a non-empty list of matches: a plain run, a
      bold run, then the runs from the end of the first match. */
  lemma RunsOfCons(t: string, cursor: nat, ms: seq<(nat, nat)>, j: nat)
    requires cursor <= |t| && InOrder(t, cursor, ms) && ms != []
    requires 2 <= j < |RunsOf(t, cursor, ms)|
    ensures cursor <= ms[0].0 && ms[0].0 + 5 <= ms[0].1 <= |t| && InOrder(t, ms[0].1, ms[1..])
    ensures |RunsOf(t, cursor, ms)| == 2 + |RunsOf(t, ms[0].1, ms[1..])|
    ensures RunsOf(t, cursor, ms)[j] == RunsOf(t, ms[0].1, ms[1..])[j - 2]
  {
  }

  lemma BoundedTail(t: string, ms: seq<(nat, nat)>)
    requires Bounded(t, ms) && ms != []
    ensures Bounded(t, ms[1..])
  {
    forall j | 0 <= j < |ms[1..]| ensures ms[1..][j].0 + 5 <= ms[1..][j].1 <= |t| {
      assert ms[1..][j] == ms[j + 1];
    }
  }

  /** The k-th plain run is the text between the (k-1)-th match and the k-th:
      from the cursor before the first match, up to the end after the last. */
  lemma {:induction false} RunsOfPlainText(t: string, cursor: nat, ms: seq<(nat, nat)>, k: nat)
    requires cursor <= |t| && InOrder(t, cursor, ms) && Bounded(t, ms)
    requires k <= |ms|
    ensures 2 * k < |RunsOf(t, cursor, ms)|
    ensures var a := if k == 0 then cursor else ms[k - 1].1;
            var b := if k < |ms| then ms[k].0 else |t|;
            a <= b <= |t| && RunsOf(t, cursor, ms)[2 * k] == Span(t[a..b], false)
    decreases |ms|
  {
    if k > 0 {
      var rest := ms[1..];
      BoundedTail(t, ms);
      assert InOrder(t, ms[0].1, rest);
      RunsOfPlainText(t, ms[0].1, rest, k - 1);
      RunsOfCons(t, cursor, ms, 2 * k);
      if k > 1 { assert rest[k - 2] == ms[k - 1]; }
      if k < |ms| { assert rest[k - 1] == ms[k]; }
    }
  }

  /** No match starts between two listed matches: after the (k-1)-th match, or
      from `from`, the next one found is the k-th, and none after the last. */
  lemma {:induction false} MatchesGap(t: string, from: nat, k: nat, i: nat)
    requires k <= |Matches(t, from)|
    requires (if k == 0 then from else Matches(t, from)[k - 1].1) <= i
    requires k < |Matches(t, from)| ==> i < Matches(t, from)[k].0
    ensures MatchAt(t, i).None?
    decreases |t| - from
  {
    var ms := Matches(t, from);
    if k == 0 {
      if ms != [] { assert NextMatch(t, from).value == ms[0]; }
      NextMatchLeftmost(t, from, i);
    } else {
      var e := ms[0].1;
      var rest := Matches(t, e);
      assert ms == [ms[0]] + rest;
      if k > 1 { assert ms[k - 1] == rest[k - 2]; }
      if k < |ms| { assert ms[k] == rest[k - 1]; }
      MatchesGap(t, e, k - 1, i);
    }
  }

  /** The k-th plain run of a paragraph is the text between its (k-1)-th and
      k-th matches, so every character outside a match shows, in place; and no
      match starts inside it, since `finditer` takes the leftmost match. */
  lemma BoldRunsPlainText(t: string, k: nat)
    requires k <= |Matches(t, 0)|
    ensures var ms := Matches(t, 0);
            var a := if k == 0 then 0 else ms[k - 1].1;
            var b := if k < |ms| then ms[k].0 else |t|;
            2 * k < |BoldRuns(t)| && a <= b <= |t| && BoldRuns(t)[2 * k] == Span(t[a..b], false)
            && forall i :: a <= i < b ==> MatchAt(t, i).None?
  {
    var ms := Matches(t, 0);
    RunsOfPlainText(t, 0, ms, k);
    var a := if k == 0 then 0 else ms[k - 1].1;
    var b := if k < |ms| then ms[k].0 else |t|;
    forall i | a <= i < b ensures MatchAt(t, i).None? {
      MatchesGap(t, 0, k, i);
    }
  }

  /** The search that follows the last match finds nothing. */
  lemma {:induction false} MatchesExhaust(t: string, from: nat)
    ensures var ms := Matches(t, from);
            NextMatch(t, if ms == [] then from else ms[|ms| - 1].1).None?
    decreases |t| - from
  {
    match NextMatch(t, from)
    case None =>
    case Some((s, e)) =>
      MatchesExhaust(t, e);
      var rest := Matches(t, e);
      assert Matches(t, from) == [(s, e)] + rest;
      if rest != [] {
        assert Matches(t, from)[|Matches(t, from)| - 1] == rest[|rest| - 1];
      }
  }

  /** After the last match nothing matches: the last run is the plain text from
      the end of the last match on, so a `**` left there unclosed stays in it. */
  lemma LastPlainRun(t: string)
    ensures var ms := Matches(t, 0);
            var e := if ms == [] then 0 else ms[|ms| - 1].1;
            e <= |t| && BoldRuns(t)[|BoldRuns(t)| - 1] == Span(t[e..], false)
            && forall i :: e <= i ==> MatchAt(t, i).None?
  {
    var ms := Matches(t, 0);
    var e := if ms == [] then 0 else ms[|ms| - 1].1;
    BoldRunsCount(t);
    RunsOfPlainText(t, 0, ms, |ms|);
    MatchesExhaust(t, 0);
    forall i | e <= i ensures MatchAt(t, i).None? {
      NextMatchLeftmost(t, e, i);
    }
  }

  /** A `**` with no second pair after it is never matched and stays in the plain text. */
  lemma {:induction false} UnclosedStaysPlain(t: string)
    requires forall i, c :: PairAt(t, i) && i + 3 <= c ==> !PairAt(t, c)
    ensures BoldRuns(t) == [Span(t, false)]
  {
    assert NextMatch(t, 0).None?;
  }
}
