/** What holds of every state `create_docx` reaches and of every document it
    saves, and how particular lines move the state. */
module Properties {
  import opened Wrappers
  import opened Text
  import opened Patterns
  import opened Bold
  import opened Docs
  import opened Converter

  /** A line as the loop buffers it: stripped and not blank. */
  predicate Kept(l: string) {
    l != "" && Strip(l) == l
  }

  /** What every block after the title satisfies. */
  predicate BlockOk(b: Block) {
    match b
    case Title(_) => false
    case Heading(t) => t != "" && IsDigit(t[0])
    case Subheading(_) => false
    case Paragraph(_) => true
    case Code(ls) => ls != [] && forall k :: 0 <= k < |ls| ==> Kept(ls[k]) && !IsFence(ls[k])
    case Table(h, rows) => forall k :: 0 <= k < |rows| ==> |rows[k]| == |h|
  }

  /** The title first, and only well-formed blocks after it. */
  predicate DocOk(doc: seq<Block>) {
    |doc| >= 1 && doc[0] == Title(TitleText) && forall k :: 1 <= k < |doc| ==> BlockOk(doc[k])
  }

  predicate AllOk(blocks: seq<Block>) {
    forall k :: 0 <= k < |blocks| ==> BlockOk(blocks[k])
  }

  /** The loop invariant of `create_docx`. */
  predicate Inv(m: Machine) {
    (m.inTable <==> m.tableLines != [])
    && (!m.inCode ==> m.codeLines == [])
    && (m.section != "" ==> IsDigit(m.section[0]))
    && (forall k :: 0 <= k < |m.content| ==>
          Kept(m.content[k]) && !IsFence(m.content[k]) && !IsTableRow(m.content[k])
          && SectionLabel(m.content[k]).None?)
    && (forall k :: 0 <= k < |m.codeLines| ==> Kept(m.codeLines[k]) && !IsFence(m.codeLines[k]))
    && (forall k :: 0 <= k < |m.tableLines| ==> Kept(m.tableLines[k]) && IsTableRow(m.tableLines[k]))
    && DocOk(m.doc)
  }

  lemma DocOkAppend(doc: seq<Block>, more: seq<Block>)
    requires DocOk(doc) && AllOk(more)
    ensures DocOk(doc + more)
  {
    forall k | 1 <= k < |doc + more| ensures BlockOk((doc + more)[k]) {
      if k >= |doc| {
        assert (doc + more)[k] == more[k - |doc|];
      }
    }
  }

  lemma FlushOk(section: string, content: seq<string>)
    requires section != "" ==> IsDigit(section[0])
    ensures AllOk(Flush(section, content))
  {
  }

  lemma TableOk(lines: seq<string>)
    requires MarkdownTable(lines).Ok?
    ensures AllOk(MarkdownTable(lines).value)
  {
    if |lines| >= 2 {
      GridTableShape(HeaderCells(lines[0]), DataRows(lines));
    }
  }

  /** A section title taken from a stripped line starts with its number. */
  lemma TitleStartsWithDigit(line: string)
    requires Kept(line) && SectionLabel(line).Some?
    ensures IsDigit(SectionLabel(line).value[0])
  {
    assert !IsSpace(line[0]);
    assert SkipLeft(line, Whitespace, 0) == 0;
    assert SectionLabel(line).value[0] == line[0];
  }

  /** The line a step works on is kept as it is buffered. */
  lemma LineKept(raw: string)
    requires Strip(raw) != ""
    ensures Kept(Strip(raw))
  {
    StripIdempotent(raw);
  }

  lemma CloseCodeKeepsInv(m: Machine)
    requires Inv(m) && m.inCode && m.codeLines != []
    ensures Inv(m.(inCode := false, codeLines := [], doc := m.doc + [Code(m.codeLines)]))
  {
    DocOkAppend(m.doc, [Code(m.codeLines)]);
  }

  lemma ToggleCodeKeepsInv(m: Machine)
    requires Inv(m) && !(m.inCode && m.codeLines != [])
    ensures Inv(m.(inCode := !m.inCode))
  {
  }

  lemma CodeLineKeepsInv(m: Machine, line: string)
    requires Inv(m) && m.inCode && Kept(line) && !IsFence(line)
    ensures Inv(m.(codeLines := m.codeLines + [line]))
  {
  }

  lemma TableLineKeepsInv(m: Machine, line: string)
    requires Inv(m) && Kept(line) && IsTableRow(line)
    ensures Inv(m.(tableLines := m.tableLines + [line], inTable := true))
  {
  }

  lemma TableEndKeepsInv(m: Machine, table: seq<Block>)
    requires Inv(m) && AllOk(table)
    ensures Inv(m.(content := [], tableLines := [], inTable := false,
                   doc := m.doc + Flush(m.section, m.content) + table))
  {
    FlushOk(m.section, m.content);
    FlushThenTable(m.doc, Flush(m.section, m.content), table);
  }

  lemma SectionKeepsInv(m: Machine, title: string)
    requires Inv(m) && title != "" && IsDigit(title[0])
    ensures Inv(m.(doc := m.doc + Flush(m.section, m.content), content := [], section := title))
    ensures Inv(m.(section := title))
  {
    FlushOk(m.section, m.content);
    DocOkAppend(m.doc, Flush(m.section, m.content));
  }

  lemma ContentKeepsInv(m: Machine, line: string)
    requires Inv(m) && Kept(line) && !IsFence(line) && !IsTableRow(line) && SectionLabel(line).None?
    ensures Inv(m.(content := m.content + [line]))
  {
  }

  /** Every turn of the loop keeps the invariant, and only adds blocks. */
  lemma StepKeepsInv(m: Machine, raw: string)
    requires Inv(m) && Step(m, raw).Ok?
    ensures Inv(Step(m, raw).value)
    ensures m.doc <= Step(m, raw).value.doc
  {
    var line := Strip(raw);
    if line == "" || IsFence(line) || m.inCode || IsTableRow(line) {
      BufferStepKeepsInv(m, raw);
    } else {
      TextStepKeepsInv(m, raw);
    }
  }

  /** Blank lines, fences, code lines and table rows. */
  lemma BufferStepKeepsInv(m: Machine, raw: string)
    requires Inv(m) && Step(m, raw).Ok?
    requires var line := Strip(raw); line == "" || IsFence(line) || m.inCode || IsTableRow(line)
    ensures Inv(Step(m, raw).value)
    ensures m.doc <= Step(m, raw).value.doc
  {
    var line := Strip(raw);
    if line == "" {
    } else if IsFence(line) {
      if m.inCode && m.codeLines != [] {
        CloseCodeKeepsInv(m);
      } else {
        ToggleCodeKeepsInv(m);
      }
    } else if m.inCode {
      LineKept(raw);
      CodeLineKeepsInv(m, line);
    } else {
      LineKept(raw);
      TableLineKeepsInv(m, line);
    }
  }

  /** The end of a table, section lines and paragraph lines. */
  lemma TextStepKeepsInv(m: Machine, raw: string)
    requires Inv(m) && Step(m, raw).Ok?
    requires var line := Strip(raw); line != "" && !IsFence(line) && !m.inCode && !IsTableRow(line)
    ensures Inv(Step(m, raw).value)
    ensures m.doc <= Step(m, raw).value.doc
  {
    var line := Strip(raw);
    if m.inTable && m.tableLines != [] {
      TableOk(m.tableLines);
      TableEndKeepsInv(m, MarkdownTable(m.tableLines).value);
    } else if SectionLabel(line).Some? {
      LineKept(raw);
      TitleStartsWithDigit(line);
      SectionKeepsInv(m, SectionLabel(line).value);
    } else if IsSubheading(line) {
      SubheadingIsSection(line);
      assert false;
    } else {
      LineKept(raw);
      ContentKeepsInv(m, line);
    }
  }

  /** Every state the loop reaches satisfies the invariant. */
  lemma {:induction false} ScanKeepsInv(lines: seq<string>)
    requires Scan(lines).Ok?
    ensures Inv(Scan(lines).value)
    decreases |lines|
  {
    if lines != [] {
      var init := lines[..|lines| - 1];
      ScanKeepsInv(init);
      StepKeepsInv(Scan(init).value, lines[|lines| - 1]);
    }
  }

  /** The document only grows: what the first `n` lines added stays, unchanged
      and in place, however the input goes on. */
  lemma {:induction false} ScanGrows(lines: seq<string>, n: nat)
    requires n <= |lines| && Scan(lines).Ok?
    ensures Scan(lines[..n]).Ok? && Scan(lines[..n]).value.doc <= Scan(lines).value.doc
    decreases |lines|
  {
    if n == |lines| {
      assert lines[..n] == lines;
    } else {
      var init := lines[..|lines| - 1];
      assert init[..n] == lines[..n];
      ScanGrows(init, n);
      ScanKeepsInv(init);
      StepKeepsInv(Scan(init).value, lines[|lines| - 1]);
    }
  }

  /** The final flush only adds well-formed blocks. */
  lemma FinishKeepsDoc(m: Machine)
    requires Inv(m) && Finish(m).Ok?
    ensures DocOk(Finish(m).value) && m.doc <= Finish(m).value
  {
    FlushOk(m.section, m.content);
    if m.inTable && m.tableLines != [] {
      TableOk(m.tableLines);
      FlushThenTable(m.doc, Flush(m.section, m.content), MarkdownTable(m.tableLines).value);
    } else if m.section != "" || m.content != [] {
      DocOkAppend(m.doc, Flush(m.section, m.content));
    }
  }

  lemma FlushThenTable(doc: seq<Block>, flushed: seq<Block>, table: seq<Block>)
    requires DocOk(doc) && AllOk(flushed) && AllOk(table)
    ensures DocOk(doc + flushed + table) && doc <= doc + flushed + table
  {
    DocOkAppend(doc, flushed + table);
    assert doc + flushed + table == doc + (flushed + table);
  }

  /** A saved document starts with the "TECHNICAL SPECIFICATION" title, has no
      other title and no sub-heading; its headings start with a section number,
      its code blocks are not empty, and every table row is as wide as its header. */
  lemma ConvertDocOk(lines: seq<string>)
    requires Convert(lines).Ok?
    ensures DocOk(Convert(lines).value)
  {
    ScanKeepsInv(lines);
    FinishKeepsDoc(Scan(lines).value);
  }

  /** A blank line changes nothing. */
  lemma BlankLineIgnored(m: Machine, raw: string)
    requires AllIn(raw, Whitespace)
    ensures Step(m, raw) == Ok(m)
  {
  }
}
