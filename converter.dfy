/** `create_docx`: one pass over the lines of the technical specification,
    with a pending section title, pending paragraph lines, and buffers for an
    open code block and an open table, then a final flush. `Step` and `Finish`
    say what each line and the end of input do; `CreateDocx` is the loop
    itself, over a `Document`. */
module Converter {
  import opened Wrappers
  import opened Text
  import opened Patterns
  import opened Bold
  import opened Docs

  const TitleText: string := "TECHNICAL SPECIFICATION"

  /** The loop's local state, and the blocks added so far. */
  datatype Machine = Machine(
    section: string,          // current_section
    content: seq<string>,     // current_content
    inCode: bool,             // in_code_block
    codeLines: seq<string>,   // code_block_lines
    inTable: bool,            // in_table
    tableLines: seq<string>,  // table_lines
    doc: seq<Block>)

  /** The state before the first line: only the title has been added. */
  function Start(): Machine {
    Machine("", [], false, [], false, [], [Title(TitleText)])
  }

  /** One paragraph per pending line, in order. */
  function Paragraphs(content: seq<string>): seq<Block> {
    seq(|content|, k requires 0 <= k < |content| => Paragraph(BoldRuns(content[k])))
  }

  lemma ParagraphsSnoc(content: seq<string>, k: nat)
    requires k < |content|
    ensures Paragraphs(content[..k + 1]) == Paragraphs(content[..k]) + [Paragraph(BoldRuns(content[k]))]
  {
  }

  /** What `flush_current_content` adds: the section heading when there is a
      section, then the pending paragraphs. */
  function Flush(section: string, content: seq<string>): seq<Block> {
    (if section != "" then [Heading(section)] else []) + Paragraphs(content)
  }

  /** One turn of the loop on the raw line `raw`; `IndexError` when the table
      it closes raises. */
  function Step(m: Machine, raw: string): Outcome<Machine> {
    var line := Strip(raw);
    if line == "" then Ok(m)
    else if IsFence(line) then
      if m.inCode && m.codeLines != [] then
        Ok(m.(inCode := false, codeLines := [], doc := m.doc + [Code(m.codeLines)]))
      else Ok(m.(inCode := !m.inCode))
    else if m.inCode then Ok(m.(codeLines := m.codeLines + [line]))
    else if IsTableRow(line) then Ok(m.(tableLines := m.tableLines + [line], inTable := true))
    else if m.inTable && m.tableLines != [] then
      (match MarkdownTable(m.tableLines)
       case IndexError => IndexError
       case Ok(table) =>
         Ok(m.(content := [], tableLines := [], inTable := false,
               doc := m.doc + Flush(m.section, m.content) + table)))
    else
      match SectionLabel(line)
      case Some(title) =>
        var flushed := if m.section != "" || m.content != [] then
          m.(doc := m.doc + Flush(m.section, m.content), content := [])
        else m;
        Ok(flushed.(section := title))
      case None =>
        if IsSubheading(line) then Ok(m.(doc := m.doc + [Subheading(line)]))
        else Ok(m.(content := m.content + [line]))
  }

  /** The state after the loop has seen `lines`, or `IndexError` once a table raised. */
  function Scan(lines: seq<string>): Outcome<Machine>
    decreases |lines|
  {
    if lines == [] then Ok(Start())
    else
      match Scan(lines[..|lines| - 1])
      case IndexError => IndexError
      case Ok(m) => Step(m, lines[|lines| - 1])
  }

  /** The final flush: a table still open is added after the pending content;
      an open code block is dropped. */
  function Finish(m: Machine): Outcome<seq<Block>> {
    if m.inTable && m.tableLines != [] then
      (match MarkdownTable(m.tableLines)
       case IndexError => IndexError
       case Ok(table) => Ok(m.doc + Flush(m.section, m.content) + table))
    else if m.section != "" || m.content != [] then Ok(m.doc + Flush(m.section, m.content))
    else Ok(m.doc)
  }

  /** The blocks of the saved document for the lines of `ts_text`. */
  function Convert(lines: seq<string>): Outcome<seq<Block>> {
    match Scan(lines)
    case IndexError => IndexError
    case Ok(m) => Finish(m)
  }

  /** `flush_current_content` */
  method FlushCurrentContent(doc: Document, section: string, content: seq<string>)
    modifies doc
    ensures doc.blocks == old(doc.blocks) + Flush(section, content)
  {
    if section != "" {
      doc.AddHeading(section);
    }
    var head := if section != "" then [Heading(section)] else [];
    for k := 0 to |content|
      invariant doc.blocks == old(doc.blocks) + head + Paragraphs(content[..k])
    {
      ParagraphsSnoc(content, k);
      doc.AddParagraph(content[k]);
    }
    assert content[..|content|] == content;
  }

  /** `create_docx(ts_text, buffer)`, given the lines of `ts_text`: the blocks
      of the saved document, or `IndexError` when a table raises. */
  method CreateDocx(lines: seq<string>) returns (result: Outcome<seq<Block>>)
    ensures result == Convert(lines)
  {
    var doc := new Document();
    doc.AddTitle(TitleText);
    var section := "";
    var content: seq<string> := [];
    var inCode := false;
    var codeLines: seq<string> := [];
    var inTable := false;
    var tableLines: seq<string> := [];
    assert lines[..0] == [] && doc.blocks == [Title(TitleText)];
    for i := 0 to |lines|
      invariant Scan(lines[..i]) == Ok(Machine(section, content, inCode, codeLines, inTable, tableLines, doc.blocks))
    {
      assert lines[..i + 1][..i] == lines[..i];
      var line := Strip(lines[i]);
      if line == "" {
      } else if IsFence(line) {
        inCode := !inCode;
        if !inCode && codeLines != [] {
          doc.AddCodeBlock(codeLines);
          codeLines := [];
        }
      } else if inCode {
        codeLines := codeLines + [line];
      } else if IsTableRow(line) {
        tableLines := tableLines + [line];
        inTable := true;
      } else if inTable && tableLines != [] {
        FlushCurrentContent(doc, section, content);
        content := [];
        var ok := doc.AddMarkdownTable(tableLines);
        if !ok {
          ScanAbortSticks(lines, i + 1);
          return IndexError;
        }
        tableLines := [];
        inTable := false;
      } else {
        var found := SectionLabel(line);
        if found.Some? {
          if section != "" || content != [] {
            FlushCurrentContent(doc, section, content);
            content := [];
          }
          section := found.value;
        } else if IsSubheading(line) {
          doc.AddSubheading(line);
        } else {
          content := content + [line];
        }
      }
    }
    assert lines[..|lines|] == lines;
    if inTable && tableLines != [] {
      FlushCurrentContent(doc, section, content);
      var ok := doc.AddMarkdownTable(tableLines);
      if !ok {
        return IndexError;
      }
    } else if section != "" || content != [] {
      FlushCurrentContent(doc, section, content);
    }
    result := Ok(doc.blocks);
  }

  /** Once a table has raised, no later line matters: the conversion fails. */
  lemma {:induction false} ScanAbortSticks(lines: seq<string>, n: nat)
    requires n <= |lines| && Scan(lines[..n]) == IndexError
    ensures Scan(lines) == IndexError
    decreases |lines|
  {
    if n < |lines| {
      var init := lines[..|lines| - 1];
      assert init[..n] == lines[..n];
      ScanAbortSticks(init, n);
    } else {
      assert lines[..n] == lines;
    }
  }
}
