/** A worked input: a section, a two-line table, then a line that closes the
    table. The section's heading comes out twice, and the closing line is lost. */
module Scenarios {
  import opened Wrappers
  import opened Text
  import opened Patterns
  import opened Docs
  import opened Converter

  lemma SplitX()
    ensures Split("|x|", '|') == ["", "x", ""]
  {
    assert "|x|"[1..] == "x|" && "x|"[1..] == "|" && "|"[1..] == "";
    assert Split("|", '|') == ["", ""];
    assert ['x'] + "" == "x";
    assert Split("x|", '|') == ["x", ""];
  }

  lemma HeaderOfX()
    ensures HeaderCells("|x|") == ["x"]
  {
    SplitX();
    assert Strip("") == "";
    StripSetFixed("x", Whitespace);
    StripSetFixed("x", SpaceOrStar);
    assert ["", "x", ""][1..] == ["x", ""] && ["x", ""][1..] == [""] && [""][1..] == [];
    assert NonBlank(["", "x", ""]) == ["x"];
  }

  lemma TableOfX()
    ensures MarkdownTable(["|x|", "|-|"]) == Ok([Table(["x"], [])])
  {
    var lines := ["|x|", "|-|"];
    HeaderOfX();
    assert lines[0] == "|x|";
    assert |DataRows(lines)| == 0;
    GridTableShape(["x"], []);
    var b := GridTable(["x"], []).value;
    assert |b[0].rows| == 0;
    assert b == [Table(["x"], [])];
  }

  /** The state after "1. A": the section is set and nothing is written. */
  function AfterSection(): Machine { Start().(section := "1. A") }
  /** The state after "|x|" and "|-|": both rows are buffered and the table is open. */
  function AfterRows(): Machine { AfterSection().(inTable := true, tableLines := ["|x|", "|-|"]) }
  /** The state after "y": the heading and the table are written, and the section stays. */
  function AfterClose(): Machine { AfterSection().(doc := [Title(TitleText), Heading("1. A"), Table(["x"], [])]) }

  lemma StepSection()
    ensures Step(Start(), "1. A") == Ok(AfterSection())
  {
    StripSetFixed("1. A", Whitespace);
    SectionLabelWholeLine("1. A", 2);
  }

  lemma StepRows()
    ensures Step(AfterSection(), "|x|") == Ok(AfterSection().(inTable := true, tableLines := ["|x|"]))
    ensures Step(AfterSection().(inTable := true, tableLines := ["|x|"]), "|-|") == Ok(AfterRows())
  {
    StripSetFixed("|x|", Whitespace);
    StripSetFixed("|-|", Whitespace);
    assert !IsFence("|x|") && IsTableRow("|x|") && !IsFence("|-|") && IsTableRow("|-|");
    assert [] + ["|x|"] == ["|x|"] && ["|x|"] + ["|-|"] == ["|x|", "|-|"];
  }

  /** The line that closes a table whose table builds. */
  lemma TableEndStep(m: Machine, raw: string)
    requires !m.inCode && m.inTable && m.tableLines != []
    requires var line := Strip(raw); line != "" && !IsFence(line) && !IsTableRow(line)
    requires MarkdownTable(m.tableLines).Ok?
    ensures Step(m, raw) == Ok(m.(content := [], tableLines := [], inTable := false,
                                 doc := m.doc + Flush(m.section, m.content) + MarkdownTable(m.tableLines).value))
  {
  }

  lemma YIsPlainLine()
    ensures Strip("y") == "y" && !IsFence("y") && !IsTableRow("y")
  {
    StripSetFixed("y", Whitespace);
  }

  lemma StepClose(m: Machine)
    requires m == AfterRows()
    ensures Step(m, "y") == Ok(AfterClose())
  {
    YIsPlainLine();
    TableOfX();
    TableEndStep(m, "y");
    assert Flush("1. A", []) == [Heading("1. A")];
    assert [Title(TitleText)] + [Heading("1. A")] + [Table(["x"], [])]
        == [Title(TitleText), Heading("1. A"), Table(["x"], [])];
  }

  lemma FinishAfterClose()
    ensures Finish(AfterClose()) == Ok([Title(TitleText), Heading("1. A"), Table(["x"], []), Heading("1. A")])
  {
    assert |Paragraphs([])| == 0;
    assert Flush("1. A", []) == [Heading("1. A")];
    assert [Title(TitleText), Heading("1. A"), Table(["x"], [])] + [Heading("1. A")]
        == [Title(TitleText), Heading("1. A"), Table(["x"], []), Heading("1. A")];
  }

  /** The loop goes on from `m` by one line. */
  lemma Chain(lines: seq<string>, raw: string, m: Machine, m': Machine)
    requires Scan(lines) == Ok(m) && Step(m, raw) == Ok(m')
    ensures Scan(lines + [raw]) == Ok(m')
  {
    assert (lines + [raw])[..|lines|] == lines;
  }

  lemma ScanSection(lines: seq<string>)
    requires lines == ["1. A"]
    ensures Scan(lines) == Ok(AfterSection())
  {
    StepSection();
    assert Scan([]) == Ok(Start());
    Chain([], "1. A", Start(), AfterSection());
    assert [] + ["1. A"] == lines;
  }

  lemma ScanRows(lines: seq<string>)
    requires lines == ["1. A", "|x|", "|-|"]
    ensures Scan(lines) == Ok(AfterRows())
  {
    var one, two := lines[..1], lines[..2];
    assert one == ["1. A"] && two == one + ["|x|"] && lines == two + ["|-|"];
    ScanSection(one);
    StepRows();
    var m2 := AfterSection().(inTable := true, tableLines := ["|x|"]);
    Chain(one, "|x|", AfterSection(), m2);
    Chain(two, "|-|", m2, AfterRows());
  }

  /** The heading "1. A" is written before the table and again after it; "y",
      which closed the table, is in no block. */
  lemma HeadingRepeatsAfterTable(lines: seq<string>)
    requires lines == ["1. A", "|x|", "|-|", "y"]
    ensures Convert(lines) == Ok([Title(TitleText), Heading("1. A"), Table(["x"], []), Heading("1. A")])
  {
    var init := lines[..3];
    assert init == ["1. A", "|x|", "|-|"] && lines == init + ["y"];
    ScanRows(init);
    StepClose(AfterRows());
    Chain(init, "y", AfterRows(), AfterClose());
    FinishAfterClose();
  }
}
