/** No paragraph is lost, duplicated or reordered: the paragraphs of the saved
    document, written back as markup, are exactly the lines that reach
    `current_content.append(line)`, in input order. */
module ParagraphOrder {
  import opened Wrappers
  import opened Text
  import opened Patterns
  import opened Bold
  import opened Docs
  import opened Converter

  /** The paragraphs of `doc`, each written back as markup, in order. */
  function Texts(doc: seq<Block>): seq<string>
    decreases |doc|
  {
    if doc == [] then []
    else (if doc[0].Paragraph? then [Markup(doc[0].runs)] else []) + Texts(doc[1..])
  }

  lemma {:induction false} TextsAppend(a: seq<Block>, b: seq<Block>)
    ensures Texts(a + b) == Texts(a) + Texts(b)
    decreases |a|
  {
    if a == [] {
      assert a + b == b;
    } else {
      assert (a + b)[1..] == a[1..] + b;
      TextsAppend(a[1..], b);
    }
  }

  /** A paragraph's markup is the line it was made from. */
  lemma {:induction false} TextsParagraphs(content: seq<string>)
    ensures Texts(Paragraphs(content)) == content
    decreases |content|
  {
    if content != [] {
      assert Paragraphs(content)[1..] == Paragraphs(content[1..]);
      BoldRunsRoundTrip(content[0]);
      TextsParagraphs(content[1..]);
    }
  }

  lemma TextsFlush(section: string, content: seq<string>)
    ensures Texts(Flush(section, content)) == content
  {
    var head := if section != "" then [Heading(section)] else [];
    TextsAppend(head, Paragraphs(content));
    TextsParagraphs(content);
  }

  lemma TextsTable(lines: seq<string>)
    requires MarkdownTable(lines).Ok?
    ensures Texts(MarkdownTable(lines).value) == []
  {
    if |lines| >= 2 {
      GridTableShape(HeaderCells(lines[0]), DataRows(lines));
    }
  }

  /** The stripped `line` reaches `current_content.append(line)` in state `m`. */
  predicate ParagraphBranch(m: Machine, line: string) {
    line != "" && !IsFence(line) && !m.inCode && !IsTableRow(line)
    && !(m.inTable && m.tableLines != []) && SectionLabel(line).None? && !IsSubheading(line)
  }

  /** The paragraphs already added, then the lines waiting to be. */
  function Pending(m: Machine): seq<string> {
    Texts(m.doc) + m.content
  }

  lemma FlushMoves(doc: seq<Block>, section: string, content: seq<string>)
    ensures Texts(doc + Flush(section, content)) == Texts(doc) + content
  {
    TextsAppend(doc, Flush(section, content));
    TextsFlush(section, content);
  }

  lemma FlushTableMoves(doc: seq<Block>, section: string, content: seq<string>, lines: seq<string>)
    requires MarkdownTable(lines).Ok?
    ensures Texts(doc + Flush(section, content) + MarkdownTable(lines).value) == Texts(doc) + content
  {
    TextsAppend(doc + Flush(section, content), MarkdownTable(lines).value);
    TextsTable(lines);
    FlushMoves(doc, section, content);
  }

  /** One turn of the loop appends its line to the pending paragraphs exactly
      when the line reaches the paragraph branch, and otherwise leaves them be. */
  lemma StepPending(m: Machine, raw: string)
    requires Step(m, raw).Ok?
    ensures Pending(Step(m, raw).value)
         == Pending(m) + (if ParagraphBranch(m, Strip(raw)) then [Strip(raw)] else [])
  {
    var line := Strip(raw);
    if line == "" {
    } else if IsFence(line) {
      TextsAppend(m.doc, [Code(m.codeLines)]);
    } else if m.inCode || IsTableRow(line) {
    } else if m.inTable && m.tableLines != [] {
      FlushTableMoves(m.doc, m.section, m.content, m.tableLines);
    } else if SectionLabel(line).Some? {
      FlushMoves(m.doc, m.section, m.content);
    } else if IsSubheading(line) {
      TextsAppend(m.doc, [Subheading(line)]);
    } else {
      assert Pending(Step(m, raw).value) == Texts(m.doc) + (m.content + [line]);
    }
  }

  /** The lines of the input that reach the paragraph branch, stripped, in order. */
  function ParagraphLines(lines: seq<string>): seq<string>
    decreases |lines|
  {
    if lines == [] then []
    else
      var init, line := lines[..|lines| - 1], Strip(lines[|lines| - 1]);
      match Scan(init)
      case IndexError => ParagraphLines(init)
      case Ok(m) => ParagraphLines(init) + (if ParagraphBranch(m, line) then [line] else [])
  }

  lemma {:induction false} ScanPending(lines: seq<string>)
    requires Scan(lines).Ok?
    ensures Pending(Scan(lines).value) == ParagraphLines(lines)
    decreases |lines|
  {
    if lines != [] {
      var init := lines[..|lines| - 1];
      ScanPending(init);
      StepPending(Scan(init).value, lines[|lines| - 1]);
    }
  }

  lemma FinishPending(m: Machine)
    requires Finish(m).Ok?
    ensures Texts(Finish(m).value) == Pending(m)
  {
    if m.inTable && m.tableLines != [] {
      FlushTableMoves(m.doc, m.section, m.content, m.tableLines);
    } else if m.section != "" || m.content != [] {
      FlushMoves(m.doc, m.section, m.content);
    } else {
      assert m.content == [];
    }
  }

  /** The paragraphs of the saved document are the lines that reached the
      paragraph branch, one each, in input order, with their markup intact. */
  lemma ConvertParagraphs(lines: seq<string>)
    requires Convert(lines).Ok?
    ensures Texts(Convert(lines).value) == ParagraphLines(lines)
  {
    ScanPending(lines);
    FinishPending(Scan(lines).value);
  }
}
