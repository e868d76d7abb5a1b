/** How particular lines move `create_docx`: fences, lines inside a code block,
    the line that ends a table, a fence left open, and when `IndexError` can
    happen at all. */
module LineEffects {
  import opened Wrappers
  import opened Text
  import opened Patterns
  import opened Docs
  import opened Converter
  import opened Properties

  /** A fence toggles the code block, emits the buffered code when it closes a
      non-empty block, and leaves an open table, the section and the pending
      paragraphs as they are: a table and a code block can be open together. */
  lemma FenceKeepsTable(m: Machine, raw: string)
    requires IsFence(Strip(raw))
    ensures Step(m, raw).Ok?
    ensures var m' := Step(m, raw).value;
      m'.inCode == !m.inCode && m'.inTable == m.inTable && m'.tableLines == m.tableLines
      && m'.section == m.section && m'.content == m.content
      && (m.inCode && m.codeLines != [] ==> m'.doc == m.doc + [Code(m.codeLines)] && m'.codeLines == [])
      && (!(m.inCode && m.codeLines != []) ==> m'.doc == m.doc && m'.codeLines == m.codeLines)
  {
  }

  /** Inside a code block every other non-blank line is code, even one that
      looks like a table row or a section heading; nothing else changes. */
  lemma CodeTakesEverything(m: Machine, raw: string)
    requires m.inCode && Strip(raw) != "" && !IsFence(Strip(raw))
    ensures Step(m, raw) == Ok(m.(codeLines := m.codeLines + [Strip(raw)]))
  {
  }

  /** A line that ends an open table: not blank, not a fence, not a table row. */
  predicate EndsTable(raw: string) {
    var line := Strip(raw);
    line != "" && !IsFence(line) && !IsTableRow(line)
  }

  /** The line that closes a table is dropped: which line it was makes no
      difference, so a section heading or a paragraph there is lost. */
  lemma TableEndDropsLine(m: Machine, a: string, b: string)
    requires !m.inCode && m.inTable && m.tableLines != []
    requires EndsTable(a) && EndsTable(b)
    ensures Step(m, a) == Step(m, b)
  {
  }

  /** Closing a table raises exactly when the table does; otherwise the pending
      content is flushed before the table, the buffers are emptied, and the
      section stays set, so the next flush writes its heading a second time. */
  lemma TableEndKeepsSection(m: Machine, raw: string)
    requires !m.inCode && m.inTable && m.tableLines != [] && EndsTable(raw)
    ensures Step(m, raw).IndexError? <==> MarkdownTable(m.tableLines).IndexError?
    ensures Step(m, raw).Ok? ==>
      var m' := Step(m, raw).value;
      m'.section == m.section && m'.content == [] && !m'.inTable && m'.tableLines == []
      && m.doc + Flush(m.section, m.content) <= m'.doc
      && MarkdownTable(m.tableLines).Ok?
      && m'.doc == m.doc + Flush(m.section, m.content) + MarkdownTable(m.tableLines).value
      && (m.section != "" ==>
            Heading(m.section) in m'.doc[|m.doc|..] && Finish(m').Ok?
            && Heading(m.section) in Finish(m').value[|m'.doc|..])
  {
    if Step(m, raw).Ok? {
      var m' := Step(m, raw).value;
      var table := MarkdownTable(m.tableLines).value;
      var flushed := Flush(m.section, m.content);
      assert m'.doc == m.doc + flushed + table;
      assert (m.doc + flushed + table)[..|m.doc + flushed|] == m.doc + flushed;
      if m.section != "" {
        assert flushed[0] == Heading(m.section);
        assert m'.doc[|m.doc|..][0] == Heading(m.section);
        assert Finish(m').value == m'.doc + [Heading(m.section)];
        assert Finish(m').value[|m'.doc|..] == [Heading(m.section)];
      }
    }
  }

  /** The final flush ignores the code-block state. */
  lemma FinishIgnoresCode(m: Machine, inCode: bool, codeLines: seq<string>)
    ensures Finish(m.(inCode := inCode, codeLines := codeLines)) == Finish(m)
  {
  }

  /** The non-blank lines of `body`, stripped, in order. */
  function CodeBuffer(body: seq<string>): seq<string> {
    if body == [] then []
    else (if Strip(body[0]) == "" then [] else [Strip(body[0])]) + CodeBuffer(body[1..])
  }

  /** The loop run on `rest` from the outcome `o`. */
  function Run(o: Outcome<Machine>, rest: seq<string>): Outcome<Machine>
    decreases |rest|
  {
    if rest == [] then o
    else
      match o
      case IndexError => IndexError
      case Ok(m) => Run(Step(m, rest[0]), rest[1..])
  }

  /** Scanning `lines + rest` is scanning `lines`, then running on `rest`. */
  lemma {:induction false} ScanThenRun(lines: seq<string>, rest: seq<string>)
    ensures Scan(lines + rest) == Run(Scan(lines), rest)
    decreases |rest|
  {
    if rest == [] {
      assert lines + rest == lines;
    } else {
      var next := lines + [rest[0]];
      assert lines + rest == next + rest[1..];
      assert next[..|lines|] == lines;
      ScanThenRun(next, rest[1..]);
    }
  }

  /** Inside a code block a line other than a fence only feeds the buffer. */
  lemma InCodeStep(m: Machine, raw: string)
    requires m.inCode && !IsFence(Strip(raw))
    ensures Step(m, raw) == Ok(m.(codeLines := m.codeLines + if Strip(raw) == "" then [] else [Strip(raw)]))
  {
    if Strip(raw) == "" {
      assert m.codeLines + [] == m.codeLines;
    }
  }

  /** Inside a code block, lines without a fence only feed the buffer. */
  lemma {:induction false} RunInCode(m: Machine, body: seq<string>)
    requires m.inCode
    requires forall k :: 0 <= k < |body| ==> !IsFence(Strip(body[k]))
    ensures Run(Ok(m), body) == Ok(m.(codeLines := m.codeLines + CodeBuffer(body)))
    decreases |body|
  {
    if body == [] {
      assert m.codeLines + [] == m.codeLines;
    } else {
      var m1 := RunHead(m, body);
      RunInCode(m1, body[1..]);
    }
  }

  /** The first line of `body` joins the buffer. */
  lemma RunHead(m: Machine, body: seq<string>) returns (m1: Machine)
    requires m.inCode && body != [] && !IsFence(Strip(body[0]))
    ensures m1.inCode && Run(Ok(m), body) == Run(Ok(m1), body[1..])
    ensures m1.(codeLines := m1.codeLines + CodeBuffer(body[1..]))
         == m.(codeLines := m.codeLines + CodeBuffer(body))
  {
    var kept := if Strip(body[0]) == "" then [] else [Strip(body[0])];
    m1 := m.(codeLines := m.codeLines + kept);
    InCodeStep(m, body[0]);
    RunCons(m, body, m1);
    BufferCons(m.codeLines, body);
  }

  lemma RunCons(m: Machine, body: seq<string>, m1: Machine)
    requires body != [] && Step(m, body[0]) == Ok(m1)
    ensures Run(Ok(m), body) == Run(Ok(m1), body[1..])
  {
  }

  lemma BufferCons(code: seq<string>, body: seq<string>)
    requires body != []
    ensures code + (if Strip(body[0]) == "" then [] else [Strip(body[0])]) + CodeBuffer(body[1..])
         == code + CodeBuffer(body)
  {
    var kept := if Strip(body[0]) == "" then [] else [Strip(body[0])];
    assert CodeBuffer(body) == kept + CodeBuffer(body[1..]);
    assert code + kept + CodeBuffer(body[1..]) == code + (kept + CodeBuffer(body[1..]));
  }

  /** After an opening fence, every line up to the next fence is buffered as code. */
  lemma OpenedScan(pre: seq<string>, fence: string, body: seq<string>)
    requires Scan(pre).Ok? && !Scan(pre).value.inCode && IsFence(Strip(fence))
    requires forall k :: 0 <= k < |body| ==> !IsFence(Strip(body[k]))
    ensures Scan(pre + [fence] + body)
         == Ok(Scan(pre).value.(inCode := true, codeLines := Scan(pre).value.codeLines + CodeBuffer(body)))
  {
    var m0 := Scan(pre).value;
    ScanThenRun(pre, [fence] + body);
    assert pre + [fence] + body == pre + ([fence] + body);
    assert ([fence] + body)[1..] == body;
    RunInCode(m0.(inCode := true), body);
  }

  /** A fence left open at the end of input loses every line after it: the
      result is as if those lines and the fence were not there. */
  lemma UnclosedFenceDropped(pre: seq<string>, fence: string, body: seq<string>)
    requires Scan(pre).Ok? && !Scan(pre).value.inCode && IsFence(Strip(fence))
    requires forall k :: 0 <= k < |body| ==> !IsFence(Strip(body[k]))
    ensures Convert(pre + [fence] + body) == Convert(pre)
  {
    OpenedScan(pre, fence, body);
    var m0 := Scan(pre).value;
    FinishIgnoresCode(m0, true, m0.codeLines + CodeBuffer(body));
  }

  /** A fenced block emits exactly one code block holding its non-blank lines,
      stripped and in order, or nothing when it has none; nothing else changes. */
  lemma FencedBlockEmitted(pre: seq<string>, open: string, body: seq<string>, close: string)
    requires Scan(pre).Ok? && !Scan(pre).value.inCode
    requires IsFence(Strip(open)) && IsFence(Strip(close))
    requires forall k :: 0 <= k < |body| ==> !IsFence(Strip(body[k]))
    ensures var m0 := Scan(pre).value;
      Scan(pre + [open] + body + [close])
        == Ok(m0.(doc := m0.doc + if CodeBuffer(body) == [] then [] else [Code(CodeBuffer(body))]))
  {
    var m0 := Scan(pre).value;
    IdleCodeEmpty(pre);
    OpenedScan(pre, open, body);
    assert m0.codeLines + CodeBuffer(body) == CodeBuffer(body);
    var m1 := m0.(inCode := true, codeLines := CodeBuffer(body));
    ScanSnoc(pre + [open] + body, close);
    CloseFenceStep(m1, close);
    if CodeBuffer(body) == [] {
      assert m0.doc + [] == m0.doc;
    }
  }

  /** Outside a code block the code buffer is empty. */
  lemma IdleCodeEmpty(lines: seq<string>)
    requires Scan(lines).Ok? && !Scan(lines).value.inCode
    ensures Scan(lines).value.codeLines == []
  {
    ScanKeepsInv(lines);
  }

  /** A fence inside a code block closes it, emitting the buffer unless it is empty. */
  lemma CloseFenceStep(m: Machine, raw: string)
    requires m.inCode && IsFence(Strip(raw))
    ensures Step(m, raw) == Ok(if m.codeLines != []
                               then m.(inCode := false, codeLines := [], doc := m.doc + [Code(m.codeLines)])
                               else m.(inCode := false))
  {
  }

  /** The loop after one more line. */
  lemma ScanSnoc(lines: seq<string>, raw: string)
    ensures Scan(lines + [raw]) == match Scan(lines)
      case IndexError => IndexError
      case Ok(m) => Step(m, raw)
  {
    assert (lines + [raw])[..|lines|] == lines;
  }

  /** A section line outside code and tables flushes what is pending (the
      guard on flushing changes nothing, as an empty flush adds nothing) and
      starts a new section with nothing pending. */
  lemma SectionLineStarts(m: Machine, raw: string)
    requires !m.inCode && !(m.inTable && m.tableLines != [])
    requires var line := Strip(raw);
      line != "" && !IsFence(line) && !IsTableRow(line) && SectionLabel(line).Some?
    ensures Step(m, raw) == Ok(m.(section := SectionLabel(Strip(raw)).value, content := [],
                                 doc := m.doc + Flush(m.section, m.content)))
  {
    if m.section == "" && m.content == [] {
      assert Flush(m.section, m.content) == [];
      assert m.doc + [] == m.doc;
    }
  }

  /** Without a table row no table is ever open. */
  lemma {:induction false} NoRowsNoTable(lines: seq<string>)
    requires forall k :: 0 <= k < |lines| ==> !IsTableRow(Strip(lines[k]))
    ensures Scan(lines).Ok? && !Scan(lines).value.inTable && Scan(lines).value.tableLines == []
    decreases |lines|
  {
    if lines != [] {
      var init := lines[..|lines| - 1];
      NoRowsNoTable(init);
      NoRowStep(Scan(init).value, lines[|lines| - 1]);
    }
  }

  /** A line that is not a table row opens no table. */
  lemma NoRowStep(m: Machine, raw: string)
    requires !m.inTable && m.tableLines == [] && !IsTableRow(Strip(raw))
    ensures Step(m, raw).Ok? && !Step(m, raw).value.inTable && Step(m, raw).value.tableLines == []
  {
  }

  /** `IndexError` needs a table: input without a table row never raises `IndexError`. */
  lemma NoRowsNoError(lines: seq<string>)
    requires forall k :: 0 <= k < |lines| ==> !IsTableRow(Strip(lines[k]))
    ensures Convert(lines).Ok?
  {
    NoRowsNoTable(lines);
  }

  /** "|a|" then "```": the table is still open and so is the code block. */
  lemma TableAndCodeOpenTogether()
    ensures Scan(["|a|", "```"]).Ok?
    ensures Scan(["|a|", "```"]).value.inTable && Scan(["|a|", "```"]).value.inCode
  {
    var lines := ["|a|", "```"];
    StripSetFixed("|a|", Whitespace);
    StripSetFixed("```", Whitespace);
    assert lines[..1] == ["|a|"] && lines[..1][..0] == [];
    assert IsFence("```");
  }
}
