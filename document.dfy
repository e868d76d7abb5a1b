/** The document `create_docx` builds, as the ordered log of what it adds:
    `add_heading`, `add_subheading`, `add_paragraph`, `add_code_block` and
    `add_markdown_table`, plus the level-1 title `create_docx` adds first, at line 56.
    Fonts, sizes, colours and the table style are fixed per kind of block,
    so the kind of block stands for them. */
module Docs {
  import opened Wrappers
  import opened Text
  import opened Bold

  datatype Block =
    | Title(text: string)                             // doc.add_heading(text, level=1)
    | Heading(text: string)                           // bold, underlined, blue, 14 pt
    | Subheading(text: string)                        // bold, 12 pt
    | Paragraph(runs: seq<Span>)                      // plain and bold runs
    | Code(lines: seq<string>)                        // one Courier New run, lines joined by "\n"
    | Table(header: seq<string>, rows: seq<seq<string>>)  // 'Table Grid', one header row

  /** The pieces of a split row that are not blank: `if cell.strip()`. */
  function NonBlank(pieces: seq<string>): seq<string> {
    if pieces == [] then []
    else (if Strip(pieces[0]) != "" then [pieces[0]] else []) + NonBlank(pieces[1..])
  }

  /** The filter keeps exactly the pieces that are not blank. */
  lemma {:induction false} NonBlankKeeps(pieces: seq<string>)
    ensures |NonBlank(pieces)| <= |pieces|
    ensures forall k :: 0 <= k < |NonBlank(pieces)| ==>
      NonBlank(pieces)[k] in pieces && Strip(NonBlank(pieces)[k]) != ""
    ensures forall p :: p in pieces && Strip(p) != "" ==> p in NonBlank(pieces)
  {
    if pieces != [] {
      NonBlankKeeps(pieces[1..]);
      var head := if Strip(pieces[0]) != "" then [pieces[0]] else [];
      assert NonBlank(pieces) == head + NonBlank(pieces[1..]);
      forall k | 0 <= k < |NonBlank(pieces)|
        ensures NonBlank(pieces)[k] in pieces && Strip(NonBlank(pieces)[k]) != ""
      {
        if k >= |head| {
          assert NonBlank(pieces)[k] == NonBlank(pieces[1..])[k - |head|];
        }
      }
      forall p | p in pieces && Strip(p) != "" ensures p in NonBlank(pieces) {
        if p != pieces[0] {
          assert p in pieces[1..];
        }
      }
    }
  }

  /** The filter works piece by piece: filtering two runs of pieces one after
      the other is filtering their concatenation, so the kept pieces keep their
      order and their repetitions. */
  lemma {:induction false} NonBlankAppend(a: seq<string>, b: seq<string>)
    ensures NonBlank(a + b) == NonBlank(a) + NonBlank(b)
    decreases |a|
  {
    if a == [] {
      assert a + b == b;
    } else {
      var head := if Strip(a[0]) != "" then [a[0]] else [];
      assert (a + b)[0] == a[0] && (a + b)[1..] == a[1..] + b;
      assert NonBlank(a + b) == head + NonBlank(a[1..] + b);
      NonBlankAppend(a[1..], b);
      assert head + (NonBlank(a[1..]) + NonBlank(b)) == (head + NonBlank(a[1..])) + NonBlank(b);
    }
  }

  /** One piece is kept exactly when it is not blank. */
  lemma NonBlankOne(p: string)
    ensures NonBlank([p]) == if Strip(p) != "" then [p] else []
  {
    assert [p][1..] == [];
  }

  /** `[cell.strip(" *") for cell in line.split("|") if cell.strip()]` */
  function HeaderCells(line: string): seq<string> {
    var kept := NonBlank(Split(line, '|'));
    seq(|kept|, k requires 0 <= k < |kept| => StripSet(kept[k], SpaceOrStar))
  }

  /** `[cell.strip() for cell in row.split("|") if cell.strip()]` */
  function RowCells(line: string): seq<string> {
    var kept := NonBlank(Split(line, '|'));
    seq(|kept|, k requires 0 <= k < |kept| => Strip(kept[k]))
  }

  /** Header cells hold no bar and neither start nor end with a space or an
      asterisk; they may be empty (a cell of only asterisks). */
  lemma HeaderCellsClean(line: string)
    ensures forall k :: 0 <= k < |HeaderCells(line)| ==>
      var h := HeaderCells(line)[k];
      '|' !in h && (h != [] ==> h[0] !in SpaceOrStar && h[|h| - 1] !in SpaceOrStar)
  {
    var kept := NonBlank(Split(line, '|'));
    NonBlankKeeps(Split(line, '|'));
    forall k | 0 <= k < |kept| ensures '|' !in StripSet(kept[k], SpaceOrStar) {
      StripSetSub(kept[k], SpaceOrStar);
    }
  }

  /** Data cells are never empty, hold no bar and are already stripped: empty
      cells of a row are dropped, not kept as blanks. */
  lemma RowCellsClean(line: string)
    ensures forall k :: 0 <= k < |RowCells(line)| ==>
      var c := RowCells(line)[k];
      c != "" && '|' !in c && Strip(c) == c
  {
    var kept := NonBlank(Split(line, '|'));
    NonBlankKeeps(Split(line, '|'));
    forall k | 0 <= k < |kept| ensures '|' !in Strip(kept[k]) && Strip(Strip(kept[k])) == Strip(kept[k]) {
      StripSetSub(kept[k], Whitespace);
      StripIdempotent(kept[k]);
    }
  }

  /** Every character `StripSet` keeps comes from its argument. */
  lemma StripSetSub(s: string, cs: set<char>)
    ensures forall k :: 0 <= k < |StripSet(s, cs)| ==> StripSet(s, cs)[k] in s
  {
    var i := SkipLeft(s, cs, 0);
    var j := SkipRight(s, cs, i, |s|);
    assert StripSet(s, cs) == s[i..j];
    forall k | 0 <= k < j - i ensures s[i..j][k] in s {
      assert s[i..j][k] == s[i + k];
    }
  }

  /** A row as python-docx holds it: `width` cells, the given ones first and
      the rest left empty. */
  function Padded(cells: seq<string>, width: nat): (r: seq<string>)
    requires |cells| <= width
    ensures |r| == width
    ensures forall k :: 0 <= k < width ==> r[k] == if k < |cells| then cells[k] else ""
  {
    cells + seq(width - |cells|, _ => "")
  }

  /** The data rows: every line after the header and the separator line. */
  function DataRows(lines: seq<string>): seq<seq<string>>
    requires |lines| >= 2
  {
    seq(|lines| - 2, k requires 0 <= k < |lines| - 2 => RowCells(lines[k + 2]))
  }

  /** Unfolds `DataRows`, away from the table lemmas' context. */
  lemma DataRowsLength(lines: seq<string>)
    requires |lines| >= 2
    ensures |DataRows(lines)| == |lines| - 2
  {
  }

  lemma DataRowAt(lines: seq<string>, k: nat)
    requires |lines| >= 2 && k < |lines| - 2
    ensures |DataRows(lines)| == |lines| - 2
    ensures DataRows(lines)[k] == RowCells(lines[k + 2])
  {
    DataRowsLength(lines);
  }

  /** The table python-docx builds from header cells and data rows: one column
      per header cell, every row padded to that width, or `IndexError` when a
      row has more cells than there are columns. */
  function GridTable(header: seq<string>, rows: seq<seq<string>>): Outcome<seq<Block>> {
    if forall k :: 0 <= k < |rows| ==> |rows[k]| <= |header| then
      Ok([Table(header, seq(|rows|, k requires 0 <= k < |rows| => Padded(rows[k], |header|)))])
    else IndexError
  }

  /** What `add_markdown_table` adds: nothing for fewer than two lines, else
      the table of the first line's header cells and the data rows. */
  function MarkdownTable(lines: seq<string>): Outcome<seq<Block>> {
    if |lines| < 2 then Ok([]) else GridTable(HeaderCells(lines[0]), DataRows(lines))
  }

  /** The table has one row per data row, as wide as the header, holding that
      row's cells and empty cells after them; it is refused exactly when some
      row is too wide. */
  lemma GridTableShape(header: seq<string>, rows: seq<seq<string>>)
    ensures GridTable(header, rows).IndexError? <==> exists k :: 0 <= k < |rows| && |rows[k]| > |header|
    ensures GridTable(header, rows).Ok? ==>
      var blocks := GridTable(header, rows).value;
      |blocks| == 1 && blocks[0].Table? && blocks[0].header == header && |blocks[0].rows| == |rows|
      && forall k :: 0 <= k < |rows| ==>
           |blocks[0].rows[k]| == |header| && blocks[0].rows[k][..|rows[k]|] == rows[k]
           && |rows[k]| <= |header| && blocks[0].rows[k] == Padded(rows[k], |header|)
  {
    if GridTable(header, rows).Ok? {
      var blocks := GridTable(header, rows).value;
      forall k | 0 <= k < |rows|
        ensures |rows[k]| <= |header| && blocks[0].rows[k] == Padded(rows[k], |header|)
        ensures blocks[0].rows[k][..|rows[k]|] == rows[k]
      {
        assert blocks[0].rows[k] == Padded(rows[k], |header|);
      }
    }
  }

  /** `GridTable` over the cells of the lines after the separator, whatever
      list holds them. */
  lemma TableOfLines(lines: seq<string>, header: seq<string>, rows: seq<seq<string>>)
    requires |lines| >= 2 && |rows| == |lines| - 2
    requires forall k :: 2 <= k < |lines| ==> rows[k - 2] == RowCells(lines[k])
    ensures GridTable(header, rows).IndexError? <==>
      exists k :: 2 <= k < |lines| && |RowCells(lines[k])| > |header|
    ensures GridTable(header, rows).Ok? ==>
      var blocks := GridTable(header, rows).value;
      |blocks| == 1 && blocks[0].Table? && blocks[0].header == header
      && |blocks[0].rows| == |lines| - 2
      && forall k :: 2 <= k < |lines| ==>
           blocks[0].rows[k - 2][..|RowCells(lines[k])|] == RowCells(lines[k])
           && |blocks[0].rows[k - 2]| == |header|
           && |RowCells(lines[k])| <= |header|
           && blocks[0].rows[k - 2] == Padded(RowCells(lines[k]), |header|)
  {
    GridTableShape(header, rows);
    if GridTable(header, rows).IndexError? {
      var k :| 0 <= k < |rows| && |rows[k]| > |header|;
      assert rows[(k + 2) - 2] == RowCells(lines[k + 2]);
    } else {
      forall k | 2 <= k < |lines| ensures |RowCells(lines[k])| <= |header| {
        assert rows[k - 2] == RowCells(lines[k]);
      }
    }
  }

  /** For markdown lines: one row per line after the separator, holding that
      line's cells and then empty cells up to the header's width; `IndexError`
      exactly when a line has more cells than the header. */
  lemma MarkdownTableShape(lines: seq<string>)
    ensures |lines| < 2 ==> MarkdownTable(lines) == Ok([])
    ensures MarkdownTable(lines).IndexError? <==>
      (|lines| >= 2 && exists k :: 2 <= k < |lines| && |RowCells(lines[k])| > |HeaderCells(lines[0])|)
    ensures MarkdownTable(lines).Ok? && |lines| >= 2 ==>
      var blocks := MarkdownTable(lines).value;
      |blocks| == 1 && blocks[0].Table? && blocks[0].header == HeaderCells(lines[0])
      && |blocks[0].rows| == |lines| - 2
      && forall k :: 2 <= k < |lines| ==>
           blocks[0].rows[k - 2][..|RowCells(lines[k])|] == RowCells(lines[k])
           && |blocks[0].rows[k - 2]| == |HeaderCells(lines[0])|
           && |RowCells(lines[k])| <= |HeaderCells(lines[0])|
           && blocks[0].rows[k - 2] == Padded(RowCells(lines[k]), |HeaderCells(lines[0])|)
  {
    if |lines| < 2 {
      return;
    }
    var rows := DataRows(lines);
    DataRowsLength(lines);
    forall k | 2 <= k < |lines| ensures rows[k - 2] == RowCells(lines[k]) {
      DataRowAt(lines, k - 2);
    }
    TableOfLines(lines, HeaderCells(lines[0]), rows);
  }

  /** The separator line is never looked at. */
  lemma SeparatorIgnored(lines: seq<string>, sep: string)
    requires |lines| >= 2
    ensures MarkdownTable(lines[1 := sep]) == MarkdownTable(lines)
  {
    assert DataRows(lines[1 := sep]) == DataRows(lines);
  }

  /** A row with no more cells than columns is filled cell by cell into a
      fresh row of `width` empty cells; one with more raises. */
  method FillRow(width: nat, cells: seq<string>) returns (row: seq<string>, fits: bool)
    ensures fits <==> |cells| <= width
    ensures fits ==> |cells| <= width && row == Padded(cells, width)
  {
    var rowCells := new string[width](_ => "");
    for i := 0 to |cells|
      invariant i <= width
      invariant forall k :: 0 <= k < width ==> rowCells[k] == if k < i then cells[k] else ""
    {
      if i >= width {
        return [], false;
      }
      rowCells[i] := cells[i];
    }
    row, fits := rowCells[..], true;
  }

  /** The header row, then each data row filled into a row of its own; stops
      at the first row that does not fit. */
  method BuildTable(header: seq<string>, rows: seq<seq<string>>) returns (table: seq<Block>, ok: bool)
    ensures ok <==> GridTable(header, rows).Ok?
    ensures ok ==> table == GridTable(header, rows).value
  {
    var width := |header|;
    var headerRow, _ := FillRow(width, header);
    assert headerRow == header;
    var grid: seq<seq<string>> := [];
    for r := 0 to |rows|
      invariant |grid| == r
      invariant forall k :: 0 <= k < r ==> |rows[k]| <= width && grid[k] == Padded(rows[k], width)
    {
      var cells, fits := FillRow(width, rows[r]);
      if !fits {
        assert GridTable(header, rows).IndexError?;
        return [], false;
      }
      grid := grid + [cells];
    }
    assert grid == seq(|rows|, k requires 0 <= k < |rows| => Padded(rows[k], width));
    table, ok := [Table(headerRow, grid)], true;
  }

  /** The document under construction: the blocks added so far, in order. */
  class Document {
    var blocks: seq<Block>

    /** `Document()` */
    constructor ()
      ensures blocks == []
    {
      blocks := [];
    }

    /** `doc.add_heading(text, level=1)` */
    method AddTitle(text: string)
      modifies this
      ensures blocks == old(blocks) + [Title(text)]
    {
      blocks := blocks + [Title(text)];
    }

    /** `add_heading(doc, text)` */
    method AddHeading(text: string)
      modifies this
      ensures blocks == old(blocks) + [Heading(text)]
    {
      blocks := blocks + [Heading(text)];
    }

    /** `add_subheading(doc, text)` */
    method AddSubheading(text: string)
      modifies this
      ensures blocks == old(blocks) + [Subheading(text)]
    {
      blocks := blocks + [Subheading(text)];
    }

    /** `add_paragraph(doc, text)` */
    method AddParagraph(text: string)
      modifies this
      ensures blocks == old(blocks) + [Paragraph(BoldRuns(text))]
    {
      var runs := SplitBold(text);
      blocks := blocks + [Paragraph(runs)];
    }

    /** `add_code_block(doc, code_lines)` */
    method AddCodeBlock(lines: seq<string>)
      modifies this
      ensures blocks == old(blocks) + [Code(lines)]
    {
      blocks := blocks + [Code(lines)];
    }

    /** `add_markdown_table(doc, lines)`; `ok` is false when it raises. */
    method AddMarkdownTable(lines: seq<string>) returns (ok: bool)
      modifies this
      ensures ok <==> MarkdownTable(lines).Ok?
      ensures ok ==> blocks == old(blocks) + MarkdownTable(lines).value
    {
      if |lines| < 2 {
        return true;
      }
      var table;
      table, ok := BuildTable(HeaderCells(lines[0]), DataRows(lines));
      if ok {
        blocks := blocks + table;
      }
    }
  }
}
