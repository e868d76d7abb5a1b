# Technical specification to Word document, modelled in Dafny

This project models `create_docx` in `app/docx_writer.py` of ABAP-EXPLAIN. The function turns a
generated technical specification, given as plain text with light markdown, into a Word document.

It works in one pass over the lines, keeping:

- the current section title;
- the paragraph lines waiting under it;
- a code-block buffer opened and closed by ```` ``` ```` fences;
- a table buffer of `|...|` rows.

It writes headings, paragraphs with `**bold**` runs, code blocks and tables through the helpers
`add_heading`, `add_subheading`, `add_paragraph`, `add_code_block` and `add_markdown_table`.

The document is an append-only log of blocks, held by the class `Docs.Document`. Each helper is a
method that appends to that log:

- `Title` is the level-1 heading that `create_docx` adds at line 56 with `doc.add_heading(..., level=1)`.
- `Heading` and `Subheading` are bold runs with fixed fonts.
- `Paragraph` is a sequence of plain and bold runs.
- `Code` holds the code lines.
- `Table` is a header row plus data rows, each padded to the header's width.

The modules follow the program:

- `Text`: `str.strip`, `str.strip(chars)` and `str.split` on one separator. Whitespace is the set of
  characters `str.isspace()` accepts: the ones `strip()` removes and `\s` matches.
- `Patterns`: the fence test and the three regular expressions of `create_docx`. Each is a
  classifier written out by hand.
- `Bold`: the `re.finditer` loop of `add_paragraph`.
- `Docs`: the blocks, the table-cell extraction of `add_markdown_table`, and the `Document` class.
- `Converter`: one turn of the loop as the function `Step`, the whole loop as the fold `Scan`, the
  final flush as `Finish`, and `CreateDocx`, the imperative loop proved equal to them.
- `Properties`, `ParagraphOrder`, `LineEffects`, `Scenarios`: what is proved about the converter.

The one error the model has is the `IndexError` at `row_cells[i]` in line 52, raised by a data row
with more cells than the header. It is a value of the model's own, `Outcome.IndexError`, not a
precondition. Errors python-docx raises on text it cannot store are not modelled (see "## Left out").

## Consequences of the code that are easy to miss

- **The line that ends a table is dropped.** The `continue` at line 101 skips the rest of the
  loop body for the line that closes a table. A section heading or a paragraph on that line is lost
  (`LineEffects.TableEndDropsLine`).
- **The section heading repeats after a table.** The table flush at lines 96-100 empties the
  pending paragraphs but leaves `current_section` set. The next flush writes the same heading again
  (`LineEffects.TableEndKeepsSection`).
- **A worked input.** The lines "1. A", "|x|", "|-|", "y" give the title, the heading "1. A", a
  table with the header "x" and no rows, and the heading "1. A" a second time. "y" appears nowhere
  (`Scenarios.HeadingRepeatsAfterTable`).
- **Sub-headings never reach the document.** Every line that `subheading_pattern` (line 66)
  matches is also matched by `section_header_pattern` (line 65), and line 106 tests that pattern
  first (`Patterns.SubheadingIsSection`). So line 112 never runs, and no saved document holds a
  `Subheading` (`Properties.ConvertDocOk`).
- **A table and a code block can be open together.** The fence test at line 80 comes before the
  table tests and does not touch `in_table` or `table_lines`. So a fence after a table row opens a
  code block while the table stays open (`LineEffects.FenceKeepsTable`,
  `LineEffects.TableAndCodeOpenTogether`).
- **A table can raise.** A data row with more cells than the header makes `row_cells[i]` at
  line 52 raise `IndexError`, and nothing in `create_docx` catches it (`Docs.MarkdownTableShape`,
  `Converter.CreateDocx`).

## Model

| member | source | states |
|---|---|---|
| Text.Strip | app/docx_writer.py:76 | the stripped line is no longer than the line, neither starts nor ends with whitespace, and is empty exactly when the line is all whitespace |
| Text.StripIsSlice | app/docx_writer.py:76 | the stripped line is the slice of the line left once its leading and trailing whitespace is removed |
| Text.StripIdempotent | app/docx_writer.py:76 | stripping a stripped line changes nothing |
| Text.StripSet | app/docx_writer.py:39 | `strip(" *")` keeps a middle slice after removing a prefix and a suffix made only of the given characters; the result neither starts nor ends with one, and is empty exactly when the cell is made only of them |
| Text.Split | app/docx_writer.py:39 | splitting on the bar gives at least one piece and no piece holds the separator |
| Text.JoinSplit | app/docx_writer.py:39 | joining the pieces of a split with the separator gives back the row |
| Text.SplitCount | app/docx_writer.py:41 | a row splits into one more piece than it has bars |
| Patterns.NumberDot | app/docx_writer.py:65 | `(\d{1,2})\.` matches exactly when one digit and a dot, or two digits and a dot, start at the position; the match ends just past the dot |
| Patterns.IsFence | app/docx_writer.py:80 | definition: the stripped line starts with three backticks; what a fence does is stated by `LineEffects.FenceKeepsTable` and `LineEffects.CodeTakesEverything` |
| Patterns.IsTableRow | app/docx_writer.py:67 | definition: at least three characters, opening and closing with a bar, so that the lazy group has a character between them; see `Properties.TableLineKeepsInv` and `LineEffects.NoRowsNoTable` |
| Patterns.IsSubheading | app/docx_writer.py:66 | definition: a number, a dot, at least one more digit, one whitespace character and at least one further character; see `Patterns.SubheadingIsSection` |
| Patterns.LabelFits | app/docx_writer.py:65 | definition of the label the lazy group `(.+?)` leaves, from where the group starts; see `Patterns.LabelFitsUnique` |
| Patterns.LabelEndsAtColon | app/docx_writer.py:65 | when a colon follows the lazy group's first character, a fitting label ends just past the first such colon |
| Patterns.LabelFitsUnique | app/docx_writer.py:65 | at most one label fits, so the contract of `SectionLabel` fixes `group(0)` for every line |
| Patterns.SectionLabel | app/docx_writer.py:65 | there is a match exactly when leading whitespace, one or two digits and a dot are followed by at least one more character; `group(0)` is the one label that fits (`LabelFits`): the prefix of the line in which the lazy group takes the first character past the whitespace after the dot, whatever it is, and then runs to the first colon after it, which ends the label, or to the end of the line when there is no such colon |
| Patterns.SubheadingIsSection | app/docx_writer.py:65-66 | every line the sub-heading pattern matches is also matched by the section pattern, which is tested first at line 106 |
| Patterns.SectionLabelWholeLine | app/docx_writer.py:110 | a stripped numbered line with no colon after its number becomes the section title whole |
| Patterns.ColonEndsLabel | app/docx_writer.py:110 | "1. A: b" gives the section title "1. A:"; the text after the colon is lost |
| Patterns.LeadingColonKept | app/docx_writer.py:65 | "1. :ab" is its own label: a colon right after the spaces is the lazy group's first character and does not end the match |
| Bold.MatchAt | app/docx_writer.py:22 | a match of `\*\*(.+?)\*\*` at an index starts and ends with a pair of asterisks and is at least five characters long |
| Bold.MatchAtSpec | app/docx_writer.py:22 | the non-greedy group closes at the first pair of asterisks after its first character; with no match at an index, either no pair starts there or no pair starts after its first inner character |
| Bold.NextMatch | app/docx_writer.py:22 | the next match `finditer` reports starts at or after the search position |
| Bold.NextMatchLeftmost | app/docx_writer.py:22 | no match starts between the search position and the reported match |
| Bold.Matches | app/docx_writer.py:22 | the matches are in order, do not overlap and lie inside the text |
| Bold.MatchesGap | app/docx_writer.py:22 | no match starts between the end of one listed match and the start of the next, nor before the first or after the last: each search takes the leftmost match |
| Bold.RunsOf | app/docx_writer.py:21-28 | definition: from a cursor and the matches left, the text up to each match as a plain run, its inner text as a bold run, and the rest as the last plain run; see `Bold.SplitBold`, `Bold.RunsOfCount`, `Bold.RunsOfPlainText`, `Bold.RunsOfBoldText` and `Bold.MarkupRunsOf` |
| Bold.BoldRuns | app/docx_writer.py:19-28 | definition: the runs from cursor 0 over all matches; see `Bold.BoldRunsRoundTrip`, `Bold.BoldRunsPlainText`, `Bold.BoldRunsInner` and `Bold.LastPlainRun` |
| Bold.MatchesAreMatches | app/docx_writer.py:22 | each listed match is a match of the pattern at its start |
| Bold.LoopStep | app/docx_writer.py:23-27 | one turn of the loop adds the plain text before the match, then the bold inner group, and resumes at the match's end |
| Bold.RunsDone | app/docx_writer.py:28 | after the last match the rest of the text is one plain run |
| Bold.SplitBold | app/docx_writer.py:19-28 | the cursor loop adds exactly the runs `BoldRuns(text)` |
| Bold.MarkupRunsOf | app/docx_writer.py:22-28 | from any cursor, wrapping the bold runs back in `**` restores the rest of the text |
| Bold.BoldRunsRoundTrip | app/docx_writer.py:19-28 | wrapping the bold runs back in `**` restores the paragraph text: nothing is lost or reordered |
| Bold.RunsOfCount | app/docx_writer.py:22-28 | from any cursor there are twice as many runs as matches, plus one |
| Bold.BoldRunsCount | app/docx_writer.py:22-28 | a paragraph has one bold run per match and one plain run more than bold runs |
| Bold.RunsOfAlternate | app/docx_writer.py:24-28 | from any cursor the runs alternate plain and bold |
| Bold.BoldRunsAlternate | app/docx_writer.py:24-28 | the runs alternate plain, bold, ..., plain |
| Bold.RunsOfBoldText | app/docx_writer.py:25-26 | from any cursor the k-th bold run is the k-th match's inner group |
| Bold.BoldRunsInner | app/docx_writer.py:25-26 | the k-th bold run holds the k-th match's `group(1)` |
| Bold.PlainRunsOfLength | app/docx_writer.py:22-28 | from any cursor the runs drop exactly four asterisks per match |
| Bold.BoldRunsPlainLength | app/docx_writer.py:22-28 | the text a reader sees is the paragraph minus four asterisks per match |
| Bold.UnclosedStaysPlain | app/docx_writer.py:22-28 | with no closing pair after an opening one, the whole text is one plain run, asterisks included |
| Bold.RunsOfPlainText | app/docx_writer.py:24-28 | from any cursor, the k-th plain run is the text between the end of the previous match, or the cursor, and the start of the next match, or the end |
| Bold.BoldRunsPlainText | app/docx_writer.py:22-28 | the k-th plain run of a paragraph is exactly the text between its (k-1)-th and k-th matches, so every character outside a match appears, in place; no match starts inside that text, since each search takes the leftmost match |
| Bold.MatchesExhaust | app/docx_writer.py:22 | the search that resumes after the last match finds nothing |
| Bold.LastPlainRun | app/docx_writer.py:22-28 | the last run is the plain text from the end of the last match on, and no match starts anywhere in it, so a `**` left unclosed there stays in it verbatim |
| Docs.NonBlankKeeps | app/docx_writer.py:39-41 | `if cell.strip()` keeps only non-blank pieces of the row, and keeps every non-blank piece; there are no more kept pieces than pieces |
| Docs.NonBlankAppend | app/docx_writer.py:39-41 | the filter is applied piece by piece: filtering a concatenation is concatenating the filtered parts, so the kept pieces keep their order and their repetitions |
| Docs.NonBlankOne | app/docx_writer.py:39-41 | one piece is kept exactly when it is not blank |
| Docs.HeaderCellsClean | app/docx_writer.py:39 | header cells hold no bar and neither start nor end with a space or an asterisk |
| Docs.RowCellsClean | app/docx_writer.py:41 | data cells are non-empty, hold no bar and are already stripped |
| Docs.Padded | app/docx_writer.py:49-52 | a filled row is as wide as the table; its first cells are the row's cells and the rest are empty |
| Docs.HeaderCells | app/docx_writer.py:39 | definition: the pieces of the split line that stay non-empty after `strip()`, each stripped of spaces and asterisks; see `Docs.HeaderCellsClean` and `Docs.NonBlankAppend` |
| Docs.RowCells | app/docx_writer.py:40-43 | definition: the pieces of the split line that stay non-empty after `strip()`, each stripped; see `Docs.RowCellsClean` |
| Docs.GridTable | app/docx_writer.py:44-52 | definition of the table python-docx builds from header cells and data rows; see `Docs.GridTableShape` and `Docs.BuildTable` |
| Docs.MarkdownTable | app/docx_writer.py:36-52 | definition of what `add_markdown_table` adds; see `Docs.MarkdownTableShape` and `Docs.SeparatorIgnored` |
| Docs.GridTableShape | app/docx_writer.py:44-52 | the table has the header cells and one row per data row; each row is that data row padded to the header's width, its own cells first and empty cells after them; it raises exactly when some row has more cells than the header |
| Docs.MarkdownTableShape | app/docx_writer.py:36-52 | fewer than two lines add nothing; otherwise one table with the first line's header cells and one row per line after the second, as wide as the header, holding that line's cells and then empty cells; `IndexError` exactly when some data line has more cells than the header |
| Docs.SeparatorIgnored | app/docx_writer.py:42 | the second line never affects the table |
| Docs.FillRow | app/docx_writer.py:50-52 | the cell loop succeeds exactly when the row fits, and then fills the padded row |
| Docs.BuildTable | app/docx_writer.py:44-52 | the header and row loops succeed exactly when `GridTable` does, and then produce its table |
| Docs.Document.constructor | app/docx_writer.py:55 | a fresh document is empty |
| Docs.Document.AddTitle | app/docx_writer.py:56 | appends the level-1 title and changes nothing else |
| Docs.Document.AddHeading | app/docx_writer.py:5-11 | appends one heading block |
| Docs.Document.AddSubheading | app/docx_writer.py:13-17 | appends one sub-heading block |
| Docs.Document.AddParagraph | app/docx_writer.py:19-28 | appends one paragraph whose runs are `BoldRuns(text)` |
| Docs.Document.AddCodeBlock | app/docx_writer.py:30-34 | appends one code block holding the lines |
| Docs.Document.AddMarkdownTable | app/docx_writer.py:36-52 | succeeds exactly when `MarkdownTable` does, and then appends exactly its blocks |
| Converter.FlushCurrentContent | app/docx_writer.py:69-73 | appends the section heading when there is a section, then one paragraph per pending line, in order |
| Converter.Flush | app/docx_writer.py:69-73 | definition of the blocks one flush adds; see `Converter.FlushCurrentContent`, `Properties.FlushOk` and `ParagraphOrder.TextsFlush` |
| Converter.Step | app/docx_writer.py:76-114 | definition of one turn of the loop; see `Properties.StepKeepsInv`, `ParagraphOrder.StepPending` and the `LineEffects` lemmas |
| Converter.Scan | app/docx_writer.py:75-114 | definition of the whole loop as a fold of `Step`; see `Properties.ScanKeepsInv`, `Properties.ScanGrows` and `LineEffects.ScanThenRun` |
| Converter.Finish | app/docx_writer.py:116-121 | definition of the final flush; see `Properties.FinishKeepsDoc` and `ParagraphOrder.FinishPending` |
| Converter.Convert | app/docx_writer.py:54-122 | definition of the whole conversion; see `Converter.CreateDocx`, `Properties.ConvertDocOk` and `ParagraphOrder.ConvertParagraphs` |
| Converter.CreateDocx | app/docx_writer.py:54-122 | the loop and the final flush produce exactly `Convert(lines)`, including `IndexError` when a table raises |
| Converter.ScanAbortSticks | app/docx_writer.py:98 | once a table has raised, no later line can change the outcome |
| Properties.FlushOk | app/docx_writer.py:69-73 | a flush adds only well-formed blocks |
| Properties.TableOk | app/docx_writer.py:44-52 | every row of a built table is as wide as its header |
| Properties.TitleStartsWithDigit | app/docx_writer.py:104-110 | a section title taken from a stripped line starts with its number |
| Properties.CloseCodeKeepsInv | app/docx_writer.py:80-84 | a closing fence keeps the loop invariant |
| Properties.ToggleCodeKeepsInv | app/docx_writer.py:80-81 | a fence that emits nothing keeps the invariant |
| Properties.CodeLineKeepsInv | app/docx_writer.py:86-87 | a code line keeps the invariant |
| Properties.TableLineKeepsInv | app/docx_writer.py:91-93 | a table row keeps the invariant |
| Properties.TableEndKeepsInv | app/docx_writer.py:95-100 | ending a table keeps the invariant |
| Properties.SectionKeepsInv | app/docx_writer.py:106-110 | a section line keeps the invariant, whether it flushes or not |
| Properties.ContentKeepsInv | app/docx_writer.py:114 | a paragraph line keeps the invariant |
| Properties.BufferStepKeepsInv | app/docx_writer.py:76-94 | blank lines, fences, code lines and table rows keep the invariant and only add blocks |
| Properties.TextStepKeepsInv | app/docx_writer.py:95-114 | the end of a table, section lines and paragraph lines keep the invariant and only add blocks |
| Properties.StepKeepsInv | app/docx_writer.py:75-114 | every turn of the loop keeps the invariant, which covers buffered lines, the fence and table flags and the blocks, and only appends blocks |
| Properties.ScanKeepsInv | app/docx_writer.py:75-114 | every state the loop reaches satisfies the invariant |
| Properties.ScanGrows | app/docx_writer.py:75-114 | the blocks added by a prefix of the input stay, in place, whatever follows |
| Properties.FinishKeepsDoc | app/docx_writer.py:116-121 | the final flush only appends well-formed blocks |
| Properties.ConvertDocOk | app/docx_writer.py:54-122 | a saved document starts with the one title; its headings start with a digit; there is no sub-heading; code blocks are non-empty, stripped and hold no fence; every table row is as wide as its header |
| Properties.BlankLineIgnored | app/docx_writer.py:76-78 | a blank line changes nothing |
| ParagraphOrder.TextsParagraphs | app/docx_writer.py:72-73 | the flushed paragraphs, written back as markup, are the pending lines |
| ParagraphOrder.TextsFlush | app/docx_writer.py:69-73 | a flush adds exactly the pending lines as paragraphs |
| ParagraphOrder.TextsTable | app/docx_writer.py:36-52 | a table adds no paragraph |
| ParagraphOrder.FlushMoves | app/docx_writer.py:69-73 | flushing moves the pending lines into the document's paragraphs, in order |
| ParagraphOrder.FlushTableMoves | app/docx_writer.py:95-100 | flushing before a table moves the pending lines into the paragraphs |
| ParagraphOrder.StepPending | app/docx_writer.py:75-114 | a turn of the loop adds its line to the paragraphs, written or pending, exactly when the line reaches line 114, and otherwise leaves them as they are |
| ParagraphOrder.ScanPending | app/docx_writer.py:75-114 | the written and pending paragraphs are the lines that reached line 114, in order |
| ParagraphOrder.FinishPending | app/docx_writer.py:116-121 | the final flush writes out every pending paragraph |
| ParagraphOrder.ConvertParagraphs | app/docx_writer.py:54-122 | the paragraphs of the saved document are the lines that reached line 114, one each, in input order, with their bold markup intact |
| LineEffects.FenceKeepsTable | app/docx_writer.py:80-85 | a fence toggles the code state, emits buffered code only when it closes a non-empty block, and leaves the table, section and paragraphs alone |
| LineEffects.CodeTakesEverything | app/docx_writer.py:86-88 | inside a code block every non-blank line that is not a fence is code, even a table row or a section line |
| LineEffects.TableEndDropsLine | app/docx_writer.py:95-101 | which line ends a table makes no difference: that line is dropped |
| LineEffects.TableEndKeepsSection | app/docx_writer.py:95-101 | ending a table raises exactly when the table does; otherwise the new document is the old one, then the flushed heading and paragraphs, then the table; the buffers empty, and the section stays, so its heading is written again later |
| LineEffects.FinishIgnoresCode | app/docx_writer.py:116-121 | the final flush ignores the code-block state |
| LineEffects.ScanThenRun | app/docx_writer.py:75 | the loop over two runs of lines is the loop over the first, continued over the second |
| LineEffects.InCodeStep | app/docx_writer.py:76-88 | inside a code block a line that is not a fence only feeds the buffer |
| LineEffects.RunInCode | app/docx_writer.py:86-88 | inside a code block, lines without a fence only add their stripped, non-blank forms to the buffer |
| LineEffects.OpenedScan | app/docx_writer.py:80-88 | after an opening fence, every line up to the next fence is buffered as code |
| LineEffects.UnclosedFenceDropped | app/docx_writer.py:116-121 | a fence left open at the end loses itself and every line after it |
| LineEffects.IdleCodeEmpty | app/docx_writer.py:80-88 | outside a code block the code buffer is empty |
| LineEffects.CloseFenceStep | app/docx_writer.py:80-84 | a closing fence emits the buffered code block when it is not empty, empties the buffer and leaves code mode; nothing else changes |
| LineEffects.FencedBlockEmitted | app/docx_writer.py:80-88 | a fenced block adds exactly one code block of its non-blank lines, or nothing when it has none, and changes nothing else |
| LineEffects.ScanSnoc | app/docx_writer.py:75 | the loop over one more line is one more turn |
| LineEffects.SectionLineStarts | app/docx_writer.py:106-110 | a section line flushes what is pending and starts a new section with nothing pending; the guard at line 107 changes nothing |
| LineEffects.NoRowStep | app/docx_writer.py:91-94 | a line that is not a table row opens no table |
| LineEffects.NoRowsNoTable | app/docx_writer.py:91-101 | without a table row no table is ever open |
| LineEffects.NoRowsNoError | app/docx_writer.py:98 | input without a table row never raises `IndexError` |
| LineEffects.TableAndCodeOpenTogether | app/docx_writer.py:80-94 | a table row followed by a fence leaves a table and a code block open together |
| Scenarios.HeaderOfX | app/docx_writer.py:39 | a header row holding the single cell x, between two bars, has the one header cell "x" |
| Scenarios.TableOfX | app/docx_writer.py:36-52 | a header and a separator give a table with that header and no rows |
| Scenarios.StepSection | app/docx_writer.py:104-110 | "1. A" in the start state becomes the section |
| Scenarios.StepRows | app/docx_writer.py:91-94 | two table rows are buffered and open a table |
| Scenarios.TableEndStep | app/docx_writer.py:95-101 | a table that builds is added after the flushed content, and the buffers empty |
| Scenarios.StepClose | app/docx_writer.py:95-101 | "y" closes the table: the heading and the table are written and "y" is lost |
| Scenarios.FinishAfterClose | app/docx_writer.py:120-121 | the kept section is flushed once more at the end |
| Scenarios.Chain | app/docx_writer.py:75 | the loop goes on from a reached state by one line |
| Scenarios.ScanSection | app/docx_writer.py:104-110 | after "1. A" the section is set and nothing is written |
| Scenarios.ScanRows | app/docx_writer.py:75-94 | after "1. A" and two table rows the section is set and the table buffer holds both rows |
| Scenarios.HeadingRepeatsAfterTable | app/docx_writer.py:54-122 | "1. A", a header row, a separator row and "y" give the title, the heading "1. A", the table, and the heading "1. A" again; "y" is lost |

## Left out

- `app/main.py` (the web endpoint that calls `create_docx`) is not part of this model.
- Converter.CreateDocx: takes the input as a sequence of lines. `ts_text.splitlines()` is not modelled, so a line never holds a line break.
- Patterns.NumberDot: takes `\d` as the ASCII digits only. The Unicode digits Python's `re` also accepts are not modelled.
- Patterns.SectionLabel: the regular expressions are hand-written classifiers for these three patterns. There is no general regex engine. `.` matches any character, because a line from `splitlines` holds no line break.
- Docs.Document.AddMarkdownTable: when it raises, the partial table python-docx has already added is not described. The exception leaves `create_docx` and the document is never saved, so that state is not observable.
- Docs.Document.AddCodeBlock: keeps the code lines as a list. The single run holding `"\n".join(code_lines)` is not modelled; `Text.JoinSplit` relates a join to its split.
- Fonts, sizes, colours, underline and the 'Table Grid' style are fixed per kind of block, so they are not modelled; the block's kind stands for them.
- `doc.save(buffer)` and the rest of python-docx's serialisation are not modelled.
- Converter.CreateDocx: python-docx stores every run and cell text through lxml, which raises `ValueError` on characters XML does not allow, such as U+0000 or U+0008. That error is not modelled: for a paragraph "a\u0008b", `create_docx` raises at lines 24-28 but `Convert` returns a document. The only error the model has is `IndexError`.
- The header row is created with as many cells as header cells. The model's padded rows stand for the empty cells python-docx creates.
