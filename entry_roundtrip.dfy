/**
 * Reading back what the writer wrote.
 *
 * The text of an entry is the preamble, the metadata table and the sections
 * after it. The reader's scans are peeled off block by block (the tolerance
 * lemmas of EntryParse), and each section is then read at the head of what
 * is left. The result is exact for the metadata, Used On and Netlist, and
 * shows the reader's quirk for the three fixed-header tables: the divider
 * comes back as a first row of dashes.
 */
module EntryRoundTrip {
  import opened Text
  import opened EntryFormat
  import opened EntryParse

  // ---------------------------------------------------------------------
  // Which lines the scans stop at
  //
  // Small facts about single lines, each stated once so that the larger
  // proofs below call them rather than unfold Strip and Lower again.
  // ---------------------------------------------------------------------

  /** Every line of the block begins with a pipe. */
  predicate PipeLines(block: seq<string>) {
    forall k :: 0 <= k < |block| ==> StartsPipe(block[k])
  }

  /** No line of the block is a "## " header. */
  predicate Plain(block: seq<string>) {
    forall k :: 0 <= k < |block| ==> NotSectionLine(block[k])
  }

  /** A line that begins with a pipe is not a "## " header. */
  lemma PipeIsPlain(line: string)
    requires StartsPipe(line)
    ensures NotSectionLine(line)
  {
    assert Strip(line)[0] == '|';
  }

  lemma PipeLinesPlain(block: seq<string>)
    requires PipeLines(block)
    ensures Plain(block)
  {
    forall k | 0 <= k < |block| ensures NotSectionLine(block[k]) {
      PipeIsPlain(block[k]);
    }
  }

  /** A line the section lookup accepts is a "## " header. */
  lemma HeaderLineIsSection(line: string, title: string)
    requires IsHeaderLine(line, SectionHeader(title))
    ensures !NotSectionLine(line)
  {
    var s := Strip(line);
    var h := "## " + title;
    assert Lower(s) == Lower(h);
    assert h[0] == '#' && h[1] == '#' && h[2] == ' ';
    assert |s| >= 3;
    assert LowerChar(s[0]) == '#' && LowerChar(s[1]) == '#' && LowerChar(s[2]) == ' ';
    assert s[..3] == "## ";
  }

  /** Lines that are not "## " headers are never taken for a section. */
  lemma PlainNoHeader(block: seq<string>, title: string)
    requires Plain(block)
    ensures NoHeader(block, SectionHeader(title))
  {
    forall k | 0 <= k < |block| ensures !IsHeaderLine(block[k], SectionHeader(title)) {
      if IsHeaderLine(block[k], SectionHeader(title)) {
        HeaderLineIsSection(block[k], title);
      }
    }
  }

  /** A line that does not begin with a pipe is neither the metadata
      header row nor a title row. */
  lemma NotPipeNotRow(line: string)
    requires !StartsPipe(line)
    ensures !IsFieldHeader(line) && !IsTitleRow(line)
  {
  }

  /** A line whose first and last characters are pipes begins with a pipe
      and is its own strip. */
  lemma PipeEnds(line: string)
    requires |line| > 0 && line[0] == '|' && line[|line| - 1] == '|'
    ensures Strip(line) == line && StartsPipe(line)
  {
    StripNonSpaceEnds(line);
    assert line[..1] == "|";
  }

  /** A written row begins with a pipe and is its own strip. */
  lemma RowLinePipe(cells: seq<string>)
    ensures Strip(RowLine(cells)) == RowLine(cells)
    ensures StartsPipe(RowLine(cells))
  {
    var line := RowLine(cells);
    assert line[0] == '|' && line[|line| - 1] == '|';
    PipeEnds(line);
  }

  lemma TableLinesPipe(headers: seq<string>, rows: seq<seq<string>>)
    ensures PipeLines(TableLines(headers, rows))
  {
    var t := TableLines(headers, rows);
    forall k | 0 <= k < |t| ensures StartsPipe(t[k]) {
      if k == 0 {
        RowLinePipe(headers);
      } else if k == 1 {
        RowLinePipe(Dashes(headers));
        assert DividerFor(headers) == RowLine(Dashes(headers));
      } else {
        RowLinePipe(Fit(rows[k - 2], |headers|));
      }
    }
  }

  lemma UsedTableLinesPipe(rows: seq<UsedRow>)
    ensures PipeLines(UsedTableLines(rows))
  {
    var t := UsedTableLines(rows);
    UsedHeadPipe(UsedHeader, UsedDivider);
    UsedBodyPipe(rows);
    assert t == [UsedHeader, UsedDivider] + UsedBodyLines(rows);
  }

  lemma UsedHeadPipe(h: string, d: string)
    requires h == UsedHeader && d == UsedDivider
    ensures StartsPipe(h) && StartsPipe(d)
  {
    assert h[0] == '|' && h[|h| - 1] == '|';
    assert d[0] == '|' && d[|d| - 1] == '|';
    PipeEnds(h);
    PipeEnds(d);
  }

  lemma UsedBodyPipe(rows: seq<UsedRow>)
    ensures PipeLines(UsedBodyLines(rows))
  {
    var b := UsedBodyLines(rows);
    if |rows| == 0 {
      UsedHeadPipe(UsedHeader, UsedDivider);
      NoneRowPipe(UsedNoneRow);
    } else {
      forall k | 0 <= k < |b| ensures StartsPipe(b[k]) {
        UsedRowIsRowLine(rows[k]);
        RowLinePipe([OrElse(rows[k].pn, "(None)"), OrElse(rows[k].occ, "0")]);
      }
    }
  }

  lemma NoneRowPipe(n: string)
    requires n == UsedNoneRow
    ensures StartsPipe(n)
  {
    assert n[0] == '|' && n[|n| - 1] == '|';
    PipeEnds(n);
  }

  // ---------------------------------------------------------------------
  // Literal facts about the fixed rows
  //
  // A fixed row is compared with the row the writer builds in four small
  // steps, one lemma each: the padded cells, the left part, the right part
  // and the whole line as left part plus right part. TwoCellRow then puts
  // them together. Each step is one short comparison of literal strings.
  // ---------------------------------------------------------------------

  /** The "(None) | 0" row is a two-cell row with padded cells. */
  lemma UsedNoneRowLine()
    ensures UsedNoneRow == RowLine([PadRight("(None)", 10), PadRight("0", 11)])
  {
    UsedNonePads();
    UsedNoneLeft();
    UsedNoneRight();
    UsedNoneWhole();
    TwoCellRow(UsedNoneRow, "(None)    ", "0          ", "| (None)     | ", "0           |");
  }

  lemma UsedNonePads()
    ensures PadRight("(None)", 10) == "(None)    " && PadRight("0", 11) == "0          "
  {
  }

  lemma UsedNoneLeft()
    ensures "| " + "(None)    " + " | " == "| (None)     | "
  {
  }

  lemma UsedNoneRight()
    ensures "0          " + " |" == "0           |"
  {
  }

  lemma UsedNoneWhole()
    ensures UsedNoneRow == "| (None)     | " + "0           |"
  {
  }

  /** A line made of "| ", a cell, " | ", a cell and " |" is the two-cell
      row of those cells. */
  lemma TwoCellRow(line: string, a: string, b: string, left: string, right: string)
    requires left == "| " + a + " | " && right == b + " |" && line == left + right
    ensures line == RowLine([a, b])
  {
    JoinTwo(a, b, " | ");
  }

  /** The metadata header row is a two-cell row, "Field" and "Value" padded. */
  lemma FieldTableHeaderLine()
    ensures FieldTableHeader == RowLine([PadRight("Field", 22), PadRight("Value", 25)])
  {
    FieldHeaderPads();
    FieldHeaderLeft();
    FieldHeaderRight();
    FieldHeaderWhole();
    TwoCellRow(FieldTableHeader, "Field                 ", "Value                    ",
               "| Field                  | ", "Value                     |");
  }

  lemma FieldHeaderPads()
    ensures PadRight("Field", 22) == "Field                 "
    ensures PadRight("Value", 25) == "Value                    "
  {
  }

  lemma FieldHeaderLeft()
    ensures "| " + "Field                 " + " | " == "| Field                  | "
  {
  }

  lemma FieldHeaderRight()
    ensures "Value                    " + " |" == "Value                     |"
  {
  }

  lemma FieldHeaderWhole()
    ensures FieldTableHeader == "| Field                  | " + "Value                     |"
  {
  }

  /** The metadata divider is the two-cell row of 22 and 25 dashes. */
  lemma FieldTableDividerLine()
    ensures FieldTableDivider == RowLine([Repeat('-', 22), Repeat('-', 25)])
  {
    FieldDividerRuns();
    FieldDividerLeft();
    FieldDividerRight();
    FieldDividerWhole();
    TwoCellRow(FieldTableDivider, "----------------------", "-------------------------",
               "| ---------------------- | ", "------------------------- |");
  }

  lemma FieldDividerRuns()
    ensures Repeat('-', 22) == "----------------------"
    ensures Repeat('-', 25) == "-------------------------"
  {
  }

  lemma FieldDividerLeft()
    ensures "| " + "----------------------" + " | " == "| ---------------------- | "
  {
  }

  lemma FieldDividerRight()
    ensures "-------------------------" + " |" == "------------------------- |"
  {
  }

  lemma FieldDividerWhole()
    ensures FieldTableDivider == "| ---------------------- | " + "------------------------- |"
  {
  }

  // ---------------------------------------------------------------------
  // Each section read at the head of the remaining lines
  // ---------------------------------------------------------------------

  /** A stripped string padded on the right strips back to itself. */
  lemma StripPadRight(s: string, width: nat)
    requires Stripped(s)
    ensures Strip(PadRight(s, width)) == s
  {
    var p := PadRight(s, width);
    assert p == "" + s + p[|s|..];
    StripPadded("", s, p[|s|..]);
    StrippedFixed(s);
  }

  /** A blank line neither begins with a pipe nor is a "## " header. */
  lemma BlankLine()
    ensures !StartsPipe("") && NotSectionLine("")
  {
    StrippedFixed("");
  }

  /** What the reader makes of a written Used On list: the "(None) | 0"
      row for an empty one, otherwise every pair with an empty cell
      replaced as the writer does and both cells stripped. */
  function ExpectedUsed(rows: seq<UsedRow>): (r: seq<UsedRow>)
    ensures |r| >= 1
  {
    if |rows| == 0 then [UsedRow("(None)", "0")]
    else seq(|rows|, i requires 0 <= i < |rows| =>
           UsedRow(Strip(OrElse(rows[i].pn, "(None)")), Strip(OrElse(rows[i].occ, "0"))))
  }

  /** The Used On cells hold no pipe. */
  predicate UsedPipeFree(rows: seq<UsedRow>) {
    forall r :: r in rows ==> '|' !in r.pn && '|' !in r.occ
  }

  /** The "(None) | 0" row reads back as that pair. */
  lemma UsedNoneRowRead()
    ensures StartsPipe(UsedNoneRow) && UsedRowOf(UsedNoneRow) == [UsedRow("(None)", "0")]
  {
    NoneRowPipe(UsedNoneRow);
    UsedNoneRowLine();
    PaddedPairRead(UsedNoneRow, "(None)", 10, "0", 11);
  }

  /** A two-cell row of padded stripped cells reads back as the cells. */
  lemma PaddedPairRead(line: string, a: string, wa: nat, b: string, wb: nat)
    requires Stripped(a) && Stripped(b) && '|' !in a && '|' !in b
    requires line == RowLine([PadRight(a, wa), PadRight(b, wb)])
    ensures UsedRowOf(line) == [UsedRow(a, b)]
    ensures MdRow(Strip(line)) == Some((a, b))
  {
    PadRightChars(a, wa);
    PadRightChars(b, wb);
    RowLineMdRow(PadRight(a, wa), PadRight(b, wb));
    StripPadRight(a, wa);
    StripPadRight(b, wb);
  }

  /** Padding adds blanks only. */
  lemma PadRightChars(s: string, width: nat)
    ensures forall c :: c in PadRight(s, width) ==> c in s || c == ' '
  {
  }

  /** A written pair reads back with its empty cells replaced and both
      cells stripped. */
  lemma UsedRowLineRead(r: UsedRow)
    requires '|' !in r.pn && '|' !in r.occ
    ensures StartsPipe(UsedRowLine(r))
    ensures UsedRowOf(UsedRowLine(r)) == [UsedRow(Strip(OrElse(r.pn, "(None)")), Strip(OrElse(r.occ, "0")))]
  {
    UsedRowIsRowLine(r);
    RowLinePipe([OrElse(r.pn, "(None)"), OrElse(r.occ, "0")]);
    RowLineMdRow(OrElse(r.pn, "(None)"), OrElse(r.occ, "0"));
  }

  /** An empty list is written as the "(None) | 0" row alone and read
      as that pair. */
  lemma UsedNoneBody(rows: seq<UsedRow>)
    requires |rows| == 0
    ensures UsedBodyLines(rows) == [UsedNoneRow]
    ensures ExpectedUsed(rows) == [UsedRow("(None)", "0")]
  {
  }

  lemma UsedPairsRead(rows: seq<UsedRow>)
    requires UsedPipeFree(rows) && |rows| > 0
    ensures |UsedBodyLines(rows)| == |ExpectedUsed(rows)|
    ensures forall k :: 0 <= k < |UsedBodyLines(rows)| ==>
              StartsPipe(UsedBodyLines(rows)[k]) && UsedRowOf(UsedBodyLines(rows)[k]) == [ExpectedUsed(rows)[k]]
  {
    var body := UsedBodyLines(rows);
    forall k | 0 <= k < |body|
      ensures StartsPipe(body[k]) && UsedRowOf(body[k]) == [ExpectedUsed(rows)[k]]
    {
      assert rows[k] in rows;
      assert body[k] == UsedRowLine(rows[k]);
      UsedRowLineRead(rows[k]);
    }
  }

  /** The Used On section read where it was written. */
  lemma UsedHead(rows: seq<UsedRow>, rest: seq<string>)
    requires UsedPipeFree(rows)
    requires rest == [] || !StartsPipe(rest[0])
    ensures UsedAt(UsedSection(rows) + rest, Some(0)) == ExpectedUsed(rows)
  {
    UsedTableLinesPipe(rows);
    UsedRowsAfterHeading("## Used On", UsedTableLines(rows), UsedBodyLines(rows), rest);
    UsedBodyRead(rows);
  }

  /** The rows of the written Used On table read back as the expected
      pairs. */
  lemma UsedBodyRead(rows: seq<UsedRow>)
    requires UsedPipeFree(rows)
    ensures UsedRowsFrom(UsedBodyLines(rows), 0) == ExpectedUsed(rows)
  {
    if |rows| == 0 {
      UsedNoneBody(rows);
      UsedNoneRowRead();
      OneRowRun(UsedNoneRow, UsedRow("(None)", "0"));
    } else {
      UsedPairsBodyRead(rows);
    }
  }

  /** A single row line reads as its pair. */
  lemma OneRowRun(line: string, p: UsedRow)
    requires StartsPipe(line) && UsedRowOf(line) == [p]
    ensures UsedRowsFrom([line], 0) == [p]
  {
    assert UsedRowsFrom([line], 1) == [];
  }

  lemma UsedPairsBodyRead(rows: seq<UsedRow>)
    requires UsedPipeFree(rows) && |rows| > 0
    ensures UsedRowsFrom(UsedBodyLines(rows), 0) == ExpectedUsed(rows)
  {
    var body := UsedBodyLines(rows);
    var want := ExpectedUsed(rows);
    UsedPairsRead(rows);
    UsedRowsRun(body, 0);
    var got := UsedRowsFrom(body, 0);
    forall k | 0 <= k < |got| ensures got[k] == want[k] {
      assert body[0 + k] == body[k];
      assert UsedRowOf(body[k]) == [want[k]];
    }
  }

  /** After a heading and a blank line, the Used On reader skips the
      table's first two lines and reads the rest. */
  lemma UsedRowsAfterHeading(heading: string, t: seq<string>, body: seq<string>, rest: seq<string>)
    requires |t| >= 2 && t[2..] == body && StartsPipe(t[0])
    requires rest == [] || !StartsPipe(rest[0])
    ensures UsedAt([heading, ""] + t + rest, Some(0)) == UsedRowsFrom(body, 0)
  {
    BlankLine();
    RunAfterHeading([heading, ""], t, rest, 2, StartsPipe, UsedRowOf);
    assert t == t[..2] + body;
    RunShift(t[..2], body, 0, StartsPipe, UsedRowOf);
  }

  /** A reader that skips to the first passing line after a heading line
      finds it just after the blank line, and reads the run of the block
      written there from the given offset on, up to a following line
      that fails. */
  lemma RunAfterHeading<R>(a: seq<string>, t: seq<string>, rest: seq<string>, off: nat,
                           keep: string -> bool, item: string -> seq<R>)
    requires |a| == 2 && !keep(a[1]) && |t| >= 1 && keep(t[0]) && off <= |t|
    requires rest == [] || !keep(rest[0])
    ensures SkipRun(a + t + rest, Some(0), off, keep, item) == RunFrom(t, off, keep, item)
  {
    var x := a + t + rest;
    assert x[1] == a[1] && x[2] == t[0];
    assert SkipUntil(x, keep, 2) == 2;
    assert SkipUntil(x, keep, 1) == 2;
    assert x == (a + t) + rest;
    RunStop(a + t, rest, |a| + off, keep, item);
    RunShift(a, t, off, keep, item);
  }

  /** The netlist text the writer can read back: every line of its
      stripped form is free of "## " headers, and its only line breaks are
      newlines (the other characters Python splits lines at do not occur). */
  predicate NetlistOk(netlist: string) {
    (forall line :: line in Split(Strip(netlist), '\n') ==> NotSectionLine(line))
    && forall c :: c in netlist ==> c == '\n' || !IsLineBreak(c)
  }

  /** The characters str.splitlines breaks lines at. */
  predicate IsLineBreak(c: char) {
    c == '\n' || c == '\r' || c == '\U{000B}' || c == '\U{000C}' || ('\U{001C}' <= c <= '\U{001E}')
    || c == '\U{0085}' || c == '\U{2028}' || c == '\U{2029}'
  }

  /** A string with no whitespace at either end that is not empty splits
      into lines the first and last of which are not blank. */
  lemma {:induction false} SplitEnds(s: string, sep: char)
    requires |s| > 0 && IsSpace(sep) && Stripped(s)
    ensures !IsBlank(Split(s, sep)[0])
    ensures !IsBlank(Split(s, sep)[|Split(s, sep)| - 1])
  {
    SplitFirst(s, sep);
    SplitLast(s, sep);
    var p := Split(s, sep);
    StripKeepsFirst(p[0]);
    NonBlankLast(p[|p| - 1]);
  }

  lemma {:induction false} SplitFirst(s: string, sep: char)
    requires |s| > 0 && s[0] != sep
    ensures |Split(s, sep)[0]| > 0 && Split(s, sep)[0][0] == s[0]
  {
  }

  lemma {:induction false} SplitLast(s: string, sep: char)
    requires |s| > 0 && s[|s| - 1] != sep
    ensures var p := Split(s, sep); |p[|p| - 1]| > 0 && p[|p| - 1][|p[|p| - 1]| - 1] == s[|s| - 1]
    decreases |s|
  {
    if |s| > 1 {
      SplitLast(s[1..], sep);
    }
  }

  /** A string that ends in a non-space character is not blank. */
  lemma NonBlankLast(s: string)
    requires |s| > 0 && !IsSpace(s[|s| - 1])
    ensures !IsBlank(s)
  {
    if IsBlank(s) {
      BlankAllSpace(s);
    }
  }

  lemma BlankAllSpace(s: string)
    requires IsBlank(s)
    ensures AllSpace(s)
  {
    var l := LStrip(s);
    LStripSuffix(s);
    RStripPrefix(l);
    assert s == s[..|s| - |l|] + l;
  }

  /** The netlist lines after a heading and a blank line, up to the blank
      line before the next "## " header, are read back joined. */
  lemma NetlistAfterHeading(heading: string, nl: seq<string>, rest: seq<string>)
    requires |nl| >= 1 && Plain(nl) && !IsBlank(nl[0]) && !IsBlank(nl[|nl| - 1])
    requires rest == [] || !NotSectionLine(rest[0])
    ensures NetlistAt([heading, ""] + nl + ([""] + rest), Some(0)) == Join(nl, "\n")
  {
    ChunkAfterHeading(heading, nl, rest);
    TrimBlankEnds(nl);
  }

  lemma ChunkAfterHeading(heading: string, nl: seq<string>, rest: seq<string>)
    requires Plain(nl)
    requires rest == [] || !NotSectionLine(rest[0])
    ensures ChunkFrom([heading, ""] + nl + ([""] + rest), 1) == [""] + nl + [""]
  {
    var m := [heading, ""] + nl + [""];
    assert [heading, ""] + nl + ([""] + rest) == m + rest;
    BlankLine();
    RunStop(m, rest, 1, NotSectionLine, LineOf);
    assert m[1..] == [""] + nl + [""];
    ChunkRun(m, 1);
  }

  /** The blank lines around lines that begin and end non-blank are
      trimmed away, and only they. */
  lemma TrimBlankEnds(nl: seq<string>)
    requires |nl| >= 1 && !IsBlank(nl[0]) && !IsBlank(nl[|nl| - 1])
    ensures DropTrailing(DropLeading([""] + nl + [""], IsBlank), IsBlank) == nl
  {
    assert IsBlank("") by { StrippedFixed(""); }
    TrimEnds(nl, IsBlank, "");
  }

  /** The netlist written for a netlist that is blank after stripping. */
  lemma PlaceholderChars(p: string)
    requires p == NetlistPlaceholder
    ensures |p| > 0 && p[0] == '(' && p[|p| - 1] == ')' && '\n' !in p
  {
  }

  /** A one-line string that begins with "(" and ends with ")". */
  lemma BracketedLine(p: string)
    requires |p| > 0 && p[0] == '(' && p[|p| - 1] == ')' && '\n' !in p
    ensures Split(p, '\n') == [p] && NotSectionLine(p) && Stripped(p)
  {
    SplitNoSeparator(p, '\n');
    StripNonSpaceEnds(p);
  }

  /** The Netlist section read where it was written: the stripped netlist,
      or the placeholder text when it is blank. */
  lemma NetlistHead(netlist: string, rest: seq<string>)
    requires NetlistOk(netlist)
    requires rest == [] || !NotSectionLine(rest[0])
    ensures NetlistAt(NetlistSection(netlist) + ([""] + rest), Some(0)) == NetlistBody(netlist)
  {
    var body := NetlistBody(netlist);
    var nl := Split(body, '\n');
    if Strip(netlist) != "" {
      assert Plain(nl);
    } else {
      PlaceholderChars(body);
      BracketedLine(body);
    }
    SplitEnds(body, '\n');
    NetlistAfterHeading("## Netlist", nl, rest);
    JoinSplit(body, '\n');
  }

  /** What the reader makes of a table written with the given headers: the
      divider's runs of dashes first, then every row fitted to the headers'
      width with its cells stripped. */
  function ExpectedTable(headers: seq<string>, rows: seq<seq<string>>): (r: seq<seq<string>>)
    ensures |r| == |rows| + 1
  {
    [Dashes(headers)] + FittedRows(rows, |headers|)
  }

  /** Every row cut or padded to n cells, each cell stripped. */
  function FittedRows(rows: seq<seq<string>>, n: nat): (r: seq<seq<string>>)
    ensures |r| == |rows|
    ensures forall k :: 0 <= k < |rows| ==> r[k] == StripAll(Fit(rows[k], n))
  {
    seq(|rows|, k requires 0 <= k < |rows| => StripAll(Fit(rows[k], n)))
  }

  predicate RowsPipeFree(rows: seq<seq<string>>) {
    forall r :: r in rows ==> PipeFree(r)
  }

  /** A table section read where it was written: the header row is
      skipped, and the divider is read as the first row. */
  lemma TableHead(heading: string, headers: seq<string>, rows: seq<seq<string>>, rest: seq<string>)
    requires |headers| >= 1 && PipeFree(headers) && RowsPipeFree(rows)
    requires rest == [] || !StartsPipe(rest[0])
    ensures TableAt(TableSection(heading, headers, rows) + rest, Some(0)) == ExpectedTable(headers, rows)
  {
    TableLinesPipe(headers, rows);
    TableRowsAfterHeading(heading, TableLines(headers, rows), rest);
    TableLinesRead(headers, rows);
  }

  /** After a heading and a blank line, the table reader skips the first
      pipe line and reads every line of the run after it. */
  lemma TableRowsAfterHeading(heading: string, t: seq<string>, rest: seq<string>)
    requires |t| >= 1 && PipeLines(t)
    requires rest == [] || !StartsPipe(rest[0])
    ensures TableAt([heading, ""] + t + rest, Some(0)) == TableRowsFrom(t, 1)
  {
    BlankLine();
    RunAfterHeading([heading, ""], t, rest, 1, StartsPipe, CellsRow);
  }

  /** The written table read from its divider on. */
  lemma TableLinesRead(headers: seq<string>, rows: seq<seq<string>>)
    requires |headers| >= 1 && PipeFree(headers) && RowsPipeFree(rows)
    ensures TableRowsFrom(TableLines(headers, rows), 1) == ExpectedTable(headers, rows)
  {
    var t := TableLines(headers, rows);
    TableLinesPipe(headers, rows);
    TableRowsRun(t, 1);
    var got := TableRowsFrom(t, 1);
    var want := ExpectedTable(headers, rows);
    forall k | 0 <= k < |got| ensures got[k] == want[k] {
      TableLineRead(headers, rows, k);
    }
  }

  /** Line 1 + k of the written table reads as row k of the expected
      table: the divider's dashes first, then the fitted rows. */
  lemma TableLineRead(headers: seq<string>, rows: seq<seq<string>>, k: nat)
    requires |headers| >= 1 && PipeFree(headers) && RowsPipeFree(rows)
    requires k < |rows| + 1
    ensures Cells(TableLines(headers, rows)[1 + k]) == ExpectedTable(headers, rows)[k]
  {
    if k == 0 {
      TableDividerRead(headers, rows);
    } else {
      var j := k - 1;
      TableBodyLineRead(headers, rows, j);
      assert 1 + k == j + 2;
    }
  }

  /** The divider reads as the runs of dashes. */
  lemma TableDividerRead(headers: seq<string>, rows: seq<seq<string>>)
    requires |headers| >= 1 && PipeFree(headers)
    ensures Cells(TableLines(headers, rows)[1]) == ExpectedTable(headers, rows)[0]
  {
    DividerCells(headers);
  }

  /** Line j + 2 of the table reads as row j fitted and stripped. */
  lemma TableBodyLineRead(headers: seq<string>, rows: seq<seq<string>>, j: nat)
    requires |headers| >= 1 && RowsPipeFree(rows) && j < |rows|
    ensures Cells(TableLines(headers, rows)[j + 2]) == ExpectedTable(headers, rows)[j + 1]
  {
    assert rows[j] in rows;
    TableRowCells(headers, rows, j);
  }


  /** A section heading is found by its own title. */
  lemma HeadingFound(heading: string, title: string)
    requires heading == "## " + title && Stripped(heading)
    ensures IsHeaderLine(heading, SectionHeader(title))
  {
    StrippedFixed(heading);
  }

  /** A heading that differs from "## <title>" in length, or in some
      character once lower-cased, is not taken for that title. */
  lemma OtherHeading(heading: string, title: string, i: nat)
    requires Stripped(heading)
    requires |heading| != |title| + 3 || (i < |heading| && LowerChar(heading[i]) != LowerChar(("## " + title)[i]))
    ensures !IsHeaderLine(heading, SectionHeader(title))
  {
    StrippedFixed(heading);
    if |heading| == |title| + 3 {
      assert Lower(heading)[i] != Lower("## " + title)[i];
    } else {
      assert |Lower(heading)| != |Lower("## " + title)|;
    }
  }

  /** A heading, a blank line and lines without "## " headers hold no
      header but the heading. */
  lemma HeadedNoHeader(heading: string, body: seq<string>, title: string)
    requires !IsHeaderLine(heading, SectionHeader(title)) && Plain(body)
    ensures NoHeader([heading, ""] + body, SectionHeader(title))
  {
    BlankLine();
    PlainNoHeader([""] + body, title);
    var x := [heading, ""] + body;
    forall k | 0 <= k < |x| ensures !IsHeaderLine(x[k], SectionHeader(title)) {
      if k > 0 {
        assert x[k] == ([""] + body)[k - 1];
      }
    }
  }

  /** The three fixed table headers hold no pipe. */
  lemma HeadersPipeFree()
    ensures PipeFree(PartlistHeaders) && PipeFree(PinHeaders) && PipeFree(TestHeaders)
  {
  }

  // ---------------------------------------------------------------------
  // The whole text
  // ---------------------------------------------------------------------

  /** An entry's text with the given metadata rows under the metadata
      table's header and divider: the shape both the writer and the
      new-entry template have. */
  function Document(date: string, rows: seq<string>, e: Entry): seq<string> {
    Preamble(date) + (([FieldTableHeader, FieldTableDivider] + rows) + Sections(e))
  }

  /** What the sections need for the text to read back as written: no
      cell holds a pipe, and the netlist has no "## " line. */
  predicate SectionsReadable(e: Entry) {
    UsedPipeFree(e.used) && NetlistOk(e.netlist)
    && RowsPipeFree(e.part) && RowsPipeFree(e.pin) && RowsPipeFree(e.tests)
  }

  /** The four opening lines are neither pipe lines nor "## " headers. */
  lemma PreambleLines(date: string)
    ensures Plain(Preamble(date))
    ensures forall k :: 0 <= k < |Preamble(date)| ==> !StartsPipe(Preamble(date)[k])
  {
    var p := Preamble(date);
    TitleLine(p[0]);
    BlankLine();
    var d := p[2];
    assert d[0] == '*';
    StripKeepsFirst(d);
    assert NotSectionLine(d) by {
      assert Strip(d)[0] != '#';
    }
  }

  lemma TitleLine(t: string)
    requires t == "# Circuit Metadata"
    ensures !StartsPipe(t) && NotSectionLine(t)
  {
    assert t[0] == '#' && t[1] == ' ' && t[|t| - 1] == 'a';
    StripNonSpaceEnds(t);
  }

  /** The metadata header row and divider begin with pipes, neither is a
      title row, and the header row is the one the metadata scan looks
      for. */
  lemma MetaHeadLines(h: string, d: string)
    requires h == FieldTableHeader && d == FieldTableDivider
    ensures StartsPipe(h) && StartsPipe(d) && IsFieldHeader(h)
    ensures !IsTitleRow(h) && !IsTitleRow(d)
  {
    MetaHeadPipes(h, d);
    FieldHeaderIs(h);
    FieldHeaderNotTitle(h);
    FieldDividerNotTitle(d);
  }

  /** The metadata header row is what the reader takes for one. */
  lemma FieldHeaderIs(h: string)
    requires h == FieldTableHeader
    ensures IsFieldHeader(h)
  {
    var a := PadRight("Field", 22);
    var b := PadRight("Value", 25);
    FieldTableHeaderLine();
    JoinTwo(a, b, " | ");
    RowLinePipe([a, b]);
    FieldHeaderWords(h, a, b);
  }


  /** The metadata header and divider both begin with a pipe. */
  lemma MetaHeadPipes(h: string, d: string)
    requires h == FieldTableHeader && d == FieldTableDivider
    ensures StartsPipe(h) && StartsPipe(d)
  {
    FieldTableHeaderLine();
    FieldTableDividerLine();
    RowLinePipe([PadRight("Field", 22), PadRight("Value", 25)]);
    RowLinePipe([Repeat('-', 22), Repeat('-', 25)]);
  }


  lemma FieldHeaderNotTitle(h: string)
    requires h == FieldTableHeader
    ensures !IsTitleRow(h)
  {
    var a := PadRight("Field", 22);
    var b := PadRight("Value", 25);
    FieldTableHeaderLine();
    PadRightChars("Field", 22);
    PadRightChars("Value", 25);
    StripPadRight("Field", 22);
    FirstCellNotTitle(h, a, b, "Field");
  }

  /** A two-cell row whose first cell strips to a word that does not begin
      with "t" in any case is not a Title row. */
  lemma FirstCellNotTitle(line: string, a: string, b: string, word: string)
    requires line == RowLine([a, b]) && '|' !in a && '|' !in b
    requires Strip(a) == word && |word| > 0 && LowerChar(word[0]) != 't'
    ensures !IsTitleRow(line)
  {
    RowLineCells([a, b]);
    assert Cells(line)[0] == word;
    assert Lower(Cells(line)[0])[0] != 't';
  }


  lemma FieldDividerNotTitle(d: string)
    requires d == FieldTableDivider
    ensures !IsTitleRow(d)
  {
    var dash := Repeat('-', 22);
    FieldTableDividerLine();
    RowLineCells([dash, Repeat('-', 25)]);
    assert dash[0] == '-' && dash[|dash| - 1] == '-';
    StripNonSpaceEnds(dash);
    assert Cells(d)[0] == dash;
    assert Lower(Cells(d)[0])[0] == '-';
  }

  /** The header row begins with "| Field" and holds "| Value" (in any
      case), as the metadata scan requires. */
  lemma FieldHeaderWords(h: string, a: string, b: string)
    requires a == PadRight("Field", 22) && b == PadRight("Value", 25)
    requires h == "| " + a + " | " + b + " |" && Strip(h) == h
    ensures IsFieldHeader(h)
  {
    var l := Lower(h);
    assert a[..5] == "Field" && |a| == 22;
    assert b[..5] == "Value";
    assert h[..7] == "| " + a[..5];
    assert h[25..32] == "| " + b[..5];
    LowerSlice(h, 0, 7);
    LowerSlice(h, 25, 32);
    assert Lower("| Field") == "| field";
    assert Lower("| Value") == "| value";
    assert l[25..][..7] == l[25..32];
    assert StartsWith(l[25..], "| value");
  }

  lemma LowerSlice(s: string, i: nat, j: nat)
    requires i <= j <= |s|
    ensures Lower(s)[i..j] == Lower(s[i..j])
  {
  }

  /** Each section heading is found by its own title and by no later one. */
  lemma UsedHeading()
    ensures IsHeaderLine("## Used On", SectionHeader("Used On"))
    ensures !IsHeaderLine("## Used On", SectionHeader("Netlist"))
    ensures !IsHeaderLine("## Used On", SectionHeader("Partlist"))
    ensures !IsHeaderLine("## Used On", SectionHeader("Pin Interface"))
    ensures !IsHeaderLine("## Used On", SectionHeader("Tests"))
  {
    var u := "## Used On";
    assert u[0] == '#' && u[|u| - 1] == 'n';
    HeadingFound(u, "Used On");
    OtherHeading(u, "Netlist", 3);
    OtherHeading(u, "Partlist", 0);
    OtherHeading(u, "Pin Interface", 0);
    OtherHeading(u, "Tests", 0);
  }

  lemma NetlistHeading()
    ensures IsHeaderLine("## Netlist", SectionHeader("Netlist"))
    ensures !IsHeaderLine("## Netlist", SectionHeader("Partlist"))
    ensures !IsHeaderLine("## Netlist", SectionHeader("Pin Interface"))
    ensures !IsHeaderLine("## Netlist", SectionHeader("Tests"))
  {
    var n := "## Netlist";
    assert n[0] == '#' && n[|n| - 1] == 't';
    HeadingFound(n, "Netlist");
    OtherHeading(n, "Partlist", 0);
    OtherHeading(n, "Pin Interface", 0);
    OtherHeading(n, "Tests", 0);
  }

  lemma PartlistHeading()
    ensures IsHeaderLine("## Partlist", SectionHeader("Partlist"))
    ensures !IsHeaderLine("## Partlist", SectionHeader("Pin Interface"))
    ensures !IsHeaderLine("## Partlist", SectionHeader("Tests"))
  {
    var p := "## Partlist";
    assert p[0] == '#' && p[|p| - 1] == 't';
    HeadingFound(p, "Partlist");
    OtherHeading(p, "Pin Interface", 0);
    OtherHeading(p, "Tests", 0);
  }

  lemma PinHeading()
    ensures IsHeaderLine("## Pin Interface", SectionHeader("Pin Interface"))
    ensures !IsHeaderLine("## Pin Interface", SectionHeader("Tests"))
  {
    var p := "## Pin Interface";
    assert p[0] == '#' && p[|p| - 1] == 'e';
    HeadingFound(p, "Pin Interface");
    OtherHeading(p, "Tests", 0);
  }

  lemma TestsHeading()
    ensures IsHeaderLine("## Tests", SectionHeader("Tests"))
  {
    var t := "## Tests";
    assert t[0] == '#' && t[|t| - 1] == 's';
    HeadingFound(t, "Tests");
  }

  lemma NetlistPlain(netlist: string)
    requires NetlistOk(netlist)
    ensures Plain(Split(NetlistBody(netlist), '\n'))
  {
    var body := NetlistBody(netlist);
    if Strip(netlist) == "" {
      PlaceholderChars(body);
      BracketedLine(body);
    }
  }

  lemma TablePlain(headers: seq<string>, rows: seq<seq<string>>)
    ensures Plain(TableLines(headers, rows))
  {
    TableLinesPipe(headers, rows);
    PipeLinesPlain(TableLines(headers, rows));
  }

  /** The metadata table, header and divider included, holds no "## "
      header. */
  lemma MetaPlain(h: string, d: string, rows: seq<string>)
    requires StartsPipe(h) && StartsPipe(d) && PipeLines(rows)
    ensures Plain([h, d] + rows)
  {
    assert PipeLines([h, d] + rows);
    PipeLinesPlain([h, d] + rows);
  }

  /** The metadata scan, past lines that begin with no pipe, reads the
      rows under the first header row and stops at the first line after
      them that begins with no pipe. */
  lemma FieldsAfter(pre: seq<string>, h: string, d: string, rows: seq<string>, sec: seq<string>, fields: map<string, string>)
    requires forall k :: 0 <= k < |pre| ==> !StartsPipe(pre[k])
    requires IsFieldHeader(h) && StartsPipe(d) && PipeLines(rows)
    requires |sec| > 0 && !StartsPipe(sec[0])
    ensures FieldScan(pre + (([h, d] + rows) + sec), fields) == FieldRowsFrom(rows, 0, fields)
  {
    var meta := [h, d] + rows;
    assert NonePass(pre, IsFieldHeader) by {
      forall k | 0 <= k < |pre| ensures !IsFieldHeader(pre[k]) {
        NotPipeNotRow(pre[k]);
      }
    }
    FieldScanAppend(pre, meta + sec, fields);
    MetaRowsRead(h, d, rows, sec, fields);
  }

  /** The metadata scan over a table at the top reads the rows under its
      header row and divider, and stops where they stop. */
  lemma MetaRowsRead(h: string, d: string, rows: seq<string>, sec: seq<string>, fields: map<string, string>)
    requires IsFieldHeader(h)
    requires |sec| > 0 && !StartsPipe(sec[0])
    ensures FieldScan(([h, d] + rows) + sec, fields) == FieldRowsFrom(rows, 0, fields)
  {
    var hd := [h, d];
    var meta := hd + rows;
    assert FieldScan(meta + sec, fields) == FieldRowsFrom(meta + sec, 2, fields) by {
      assert (meta + sec)[0] == h;
      FirstFieldTable(meta + sec, 0, fields);
    }
    assert FieldRowsFrom(meta + sec, 2, fields) == FieldRowsFrom(meta, 2, fields) by {
      FoldStop(meta, sec, 2, StartsPipe, ApplyFieldRow, fields);
    }
    assert FieldRowsFrom(meta, 2, fields) == FieldRowsFrom(rows, 0, fields) by {
      FoldShift(hd, rows, 0, StartsPipe, ApplyFieldRow, fields);
      assert |hd| + 0 == 2;
    }
  }

  /** The metadata of a document is what its metadata rows make of the
      empty record. */
  lemma DocFields(date: string, rows: seq<string>, e: Entry)
    requires PipeLines(rows)
    ensures FieldScan(Document(date, rows, e), DefaultFields()) == FieldRowsFrom(rows, 0, DefaultFields())
  {
    PreambleLines(date);
    MetaHeadLines(FieldTableHeader, FieldTableDivider);
    BlankLine();
    assert Sections(e)[0] == "";
    FieldsAfter(Preamble(date), FieldTableHeader, FieldTableDivider, rows, Sections(e), DefaultFields());
  }

  /** No line of the block is a title row. */
  predicate NoTitle(block: seq<string>) {
    forall k :: 0 <= k < |block| ==> !IsTitleRow(block[k])
  }

  /** Lines that begin with no pipe hold no title row. */
  lemma NoPipeNoTitle(pre: seq<string>)
    requires forall k :: 0 <= k < |pre| ==> !StartsPipe(pre[k])
    ensures NoTitle(pre)
  {
    forall k | 0 <= k < |pre| ensures !IsTitleRow(pre[k]) {
      NotPipeNotRow(pre[k]);
    }
  }

  lemma MetaNoTitle(hd: seq<string>)
    requires hd == [FieldTableHeader, FieldTableDivider]
    ensures NoTitle(hd)
  {
    FieldHeaderNotTitle(hd[0]);
    FieldDividerNotTitle(hd[1]);
  }

  lemma TitleHead(rest: seq<string>)
    requires |rest| >= 1 && IsTitleRow(rest[0])
    ensures TitleOf(rest) == Cells(rest[0])[1]
  {
  }

  /** The title scan, past two blocks without title rows, finds the first
      line after them when it is one. */
  lemma TitleAfter(pre: seq<string>, hd: seq<string>, rows: seq<string>, sec: seq<string>)
    requires NoTitle(pre) && NoTitle(hd)
    requires |rows| >= 1 && IsTitleRow(rows[0])
    ensures TitleOf(pre + ((hd + rows) + sec)) == Cells(rows[0])[1]
  {
    var rest := rows + sec;
    assert (hd + rows) + sec == hd + rest;
    TitleAppend(pre, hd + rest);
    TitleAppend(hd, rest);
    assert rest[0] == rows[0];
    TitleHead(rest);
  }

  /** The title found in a document is the second cell of its first
      metadata row, when that row is a title row. */
  lemma DocTitle(date: string, rows: seq<string>, e: Entry)
    requires |rows| >= 1 && IsTitleRow(rows[0])
    ensures TitleOf(Document(date, rows, e)) == Cells(rows[0])[1]
  {
    PreambleLines(date);
    NoPipeNoTitle(Preamble(date));
    MetaNoTitle([FieldTableHeader, FieldTableDivider]);
    TitleAfter(Preamble(date), [FieldTableHeader, FieldTableDivider], rows, Sections(e));
  }

  // ---------------------------------------------------------------------
  // The sections, one at a time
  // ---------------------------------------------------------------------

  /** What follows each section heading's predecessor: the sections from
      the named one to the end. */
  function TestsTail(e: Entry): seq<string> {
    TableSection("## Tests", TestHeaders, e.tests)
  }

  function PinTail(e: Entry): seq<string> {
    TableSection("## Pin Interface", PinHeaders, e.pin) + ([""] + TestsTail(e))
  }

  function PartTail(e: Entry): seq<string> {
    TableSection("## Partlist", PartlistHeaders, e.part) + ([""] + PinTail(e))
  }

  function NetTail(e: Entry): seq<string> {
    NetlistSection(e.netlist) + ([""] + PartTail(e))
  }

  function UsedTail(e: Entry): seq<string> {
    UsedSection(e.used) + ([""] + NetTail(e))
  }

  lemma SectionsTails(e: Entry)
    ensures Sections(e) == [""] + UsedTail(e)
  {
  }

  /** The preamble, the metadata table and the blank line after it hold no
      section heading. */
  lemma HeadBlocksNoHeader(date: string, rows: seq<string>, title: string)
    requires PipeLines(rows)
    ensures NoHeader(Preamble(date), SectionHeader(title))
    ensures NoHeader([FieldTableHeader, FieldTableDivider] + rows, SectionHeader(title))
    ensures NoHeader([""], SectionHeader(title))
  {
    PreambleLines(date);
    PlainNoHeader(Preamble(date), title);
    MetaHeadPipes(FieldTableHeader, FieldTableDivider);
    MetaPlain(FieldTableHeader, FieldTableDivider, rows);
    PlainNoHeader([FieldTableHeader, FieldTableDivider] + rows, title);
    BlankLine();
    PlainNoHeader([""], title);
  }

  /** Each section reader skips a block without its heading. */
  lemma ReadersPeel(a: seq<string>, b: seq<string>, title: string)
    requires NoHeader(a, SectionHeader(title))
    ensures TableOf(a + b, title) == TableOf(b, title)
    ensures title == "Used On" ==> UsedOf(a + b) == UsedOf(b)
    ensures title == "Netlist" ==> NetlistOf(a + b) == NetlistOf(b)
  {
    TableOfAppend(a, b, title);
    if title == "Used On" {
      UsedOfAppend(a, b);
    }
    if title == "Netlist" {
      NetlistOfAppend(a, b);
    }
  }

  /** Each section reader skips a heading and a body without its own
      heading, and the blank line after them. */
  lemma SectionPeel(heading: string, body: seq<string>, rest: seq<string>, title: string)
    requires !IsHeaderLine(heading, SectionHeader(title)) && Plain(body)
    ensures TableOf(([heading, ""] + body) + ([""] + rest), title) == TableOf(rest, title)
    ensures title == "Used On" ==> UsedOf(([heading, ""] + body) + ([""] + rest)) == UsedOf(rest)
    ensures title == "Netlist" ==> NetlistOf(([heading, ""] + body) + ([""] + rest)) == NetlistOf(rest)
  {
    HeadedNoHeader(heading, body, title);
    BlankLine();
    PlainNoHeader([""], title);
    ReadersPeel([heading, ""] + body, [""] + rest, title);
    ReadersPeel([""], rest, title);
  }

  /** Every section reader, on a document, reads what it reads from the
      Used On heading on. */
  lemma DocToSections(date: string, rows: seq<string>, e: Entry, title: string)
    requires PipeLines(rows)
    ensures TableOf(Document(date, rows, e), title) == TableOf(UsedTail(e), title)
    ensures title == "Used On" ==> UsedOf(Document(date, rows, e)) == UsedOf(UsedTail(e))
    ensures title == "Netlist" ==> NetlistOf(Document(date, rows, e)) == NetlistOf(UsedTail(e))
  {
    var pre := Preamble(date);
    var meta := [FieldTableHeader, FieldTableDivider] + rows;
    HeadBlocksNoHeader(date, rows, title);
    SectionsTails(e);
    ReadersPeel(pre, meta + ([""] + UsedTail(e)), title);
    ReadersPeel(meta, [""] + UsedTail(e), title);
    ReadersPeel([""], UsedTail(e), title);
  }

  /** A lookup finds a section whose heading is the first line. */
  lemma FoundFirst(lines: seq<string>, title: string)
    requires |lines| > 0 && IsHeaderLine(lines[0], SectionHeader(title))
    ensures FindHeader(lines, SectionHeader(title)) == Some(0)
  {
    FirstFromAt(lines, HeaderTest(SectionHeader(title)), 0, 0);
  }

  lemma UsedTailUsed(e: Entry)
    requires UsedPipeFree(e.used)
    ensures UsedOf(UsedTail(e)) == ExpectedUsed(e.used)
  {
    UsedHeading();
    FoundFirst(UsedTail(e), "Used On");
    BlankLine();
    UsedHead(e.used, [""] + NetTail(e));
  }

  /** The sections after Used On, read past the Used On section. */
  lemma UsedPeel(e: Entry, title: string)
    requires !IsHeaderLine("## Used On", SectionHeader(title))
    ensures TableOf(UsedTail(e), title) == TableOf(NetTail(e), title)
    ensures title == "Netlist" ==> NetlistOf(UsedTail(e)) == NetlistOf(NetTail(e))
  {
    UsedTableLinesPipe(e.used);
    PipeLinesPlain(UsedTableLines(e.used));
    SectionPeel("## Used On", UsedTableLines(e.used), NetTail(e), title);
  }

  /** The sections after the Netlist, read past the Netlist section. */
  lemma NetPeel(e: Entry, title: string)
    requires NetlistOk(e.netlist) && !IsHeaderLine("## Netlist", SectionHeader(title))
    ensures TableOf(NetTail(e), title) == TableOf(PartTail(e), title)
  {
    NetlistPlain(e.netlist);
    SectionPeel("## Netlist", Split(NetlistBody(e.netlist), '\n'), PartTail(e), title);
  }

  /** The sections after the Partlist, read past the Partlist section. */
  lemma PartPeel(e: Entry, title: string)
    requires !IsHeaderLine("## Partlist", SectionHeader(title))
    ensures TableOf(PartTail(e), title) == TableOf(PinTail(e), title)
  {
    TablePlain(PartlistHeaders, e.part);
    SectionPeel("## Partlist", TableLines(PartlistHeaders, e.part), PinTail(e), title);
  }

  /** The Tests section, read past the Pin Interface section. */
  lemma PinPeel(e: Entry, title: string)
    requires !IsHeaderLine("## Pin Interface", SectionHeader(title))
    ensures TableOf(PinTail(e), title) == TableOf(TestsTail(e), title)
  {
    TablePlain(PinHeaders, e.pin);
    SectionPeel("## Pin Interface", TableLines(PinHeaders, e.pin), TestsTail(e), title);
  }

  lemma UsedTailNetlist(e: Entry)
    requires NetlistOk(e.netlist)
    ensures NetlistOf(UsedTail(e)) == NetlistBody(e.netlist)
  {
    UsedHeading();
    UsedPeel(e, "Netlist");
    NetlistHeading();
    FoundFirst(NetTail(e), "Netlist");
    PartlistHeading();
    HeaderLineIsSection("## Partlist", "Partlist");
    NetlistHead(e.netlist, PartTail(e));
  }

  /** The Partlist table read where it was written. */
  lemma PartTailRead(e: Entry)
    requires RowsPipeFree(e.part)
    ensures TableOf(PartTail(e), "Partlist") == ExpectedTable(PartlistHeaders, e.part)
  {
    PartlistHeading();
    FoundFirst(PartTail(e), "Partlist");
    HeadersPipeFree();
    BlankLine();
    TableHead("## Partlist", PartlistHeaders, e.part, [""] + PinTail(e));
  }

  /** The Pin Interface table read where it was written. */
  lemma PinTailRead(e: Entry)
    requires RowsPipeFree(e.pin)
    ensures TableOf(PinTail(e), "Pin Interface") == ExpectedTable(PinHeaders, e.pin)
  {
    PinHeading();
    FoundFirst(PinTail(e), "Pin Interface");
    HeadersPipeFree();
    BlankLine();
    TableHead("## Pin Interface", PinHeaders, e.pin, [""] + TestsTail(e));
  }

  /** The Tests table read where it was written, at the end of the text. */
  lemma TestsTailRead(e: Entry)
    requires RowsPipeFree(e.tests)
    ensures TableOf(TestsTail(e), "Tests") == ExpectedTable(TestHeaders, e.tests)
  {
    TestsHeading();
    FoundFirst(TestsTail(e), "Tests");
    HeadersPipeFree();
    assert TestsTail(e) + [] == TestsTail(e);
    TableHead("## Tests", TestHeaders, e.tests, []);
  }

  /** The reader's view of a fixed-header table as written. */
  lemma UsedTailPart(e: Entry)
    requires NetlistOk(e.netlist) && RowsPipeFree(e.part)
    ensures TableOf(UsedTail(e), "Partlist") == ExpectedTable(PartlistHeaders, e.part)
  {
    var t := "Partlist";
    UsedHeading();
    NetlistHeading();
    UsedPeel(e, t);
    NetPeel(e, t);
    PartTailRead(e);
  }

  lemma UsedTailPin(e: Entry)
    requires NetlistOk(e.netlist) && RowsPipeFree(e.pin)
    ensures TableOf(UsedTail(e), "Pin Interface") == ExpectedTable(PinHeaders, e.pin)
  {
    var t := "Pin Interface";
    UsedHeading();
    NetlistHeading();
    PartlistHeading();
    UsedPeel(e, t);
    NetPeel(e, t);
    PartPeel(e, t);
    PinTailRead(e);
  }

  lemma UsedTailTests(e: Entry)
    requires NetlistOk(e.netlist) && RowsPipeFree(e.tests)
    ensures TableOf(UsedTail(e), "Tests") == ExpectedTable(TestHeaders, e.tests)
  {
    var t := "Tests";
    UsedHeading();
    NetlistHeading();
    PartlistHeading();
    PinHeading();
    UsedPeel(e, t);
    NetPeel(e, t);
    PartPeel(e, t);
    PinPeel(e, t);
    TestsTailRead(e);
  }

  /** What the reader makes of a document: the metadata rows applied to
      the empty record, the Used On pairs with blanks filled in, the
      netlist body, and each fixed-header table with its divider as a
      first row of dashes. */
  lemma ParseDocument(date: string, rows: seq<string>, e: Entry)
    requires PipeLines(rows) && SectionsReadable(e)
    ensures Parse(Document(date, rows, e)) == Entry(
              FieldRowsFrom(rows, 0, DefaultFields()),
              ExpectedUsed(e.used),
              NetlistBody(e.netlist),
              ExpectedTable(PartlistHeaders, e.part),
              ExpectedTable(PinHeaders, e.pin),
              ExpectedTable(TestHeaders, e.tests))
  {
    DocFields(date, rows, e);
    DocToSections(date, rows, e, "Used On");
    UsedTailUsed(e);
    DocToSections(date, rows, e, "Netlist");
    UsedTailNetlist(e);
    DocToSections(date, rows, e, "Partlist");
    UsedTailPart(e);
    DocToSections(date, rows, e, "Pin Interface");
    UsedTailPin(e);
    DocToSections(date, rows, e, "Tests");
    UsedTailTests(e);
  }

  // ---------------------------------------------------------------------
  // The metadata rows
  // ---------------------------------------------------------------------

  /** The keys of an order from index i on. */
  function KeysFrom(order: seq<(string, string)>, i: nat): set<string> {
    set j | i <= j < |order| :: order[j].0
  }

  /** Keys the row pattern gives back unchanged. */
  predicate KeysReadable(order: seq<(string, string)>) {
    forall i :: 0 <= i < |order| ==> Stripped(order[i].0) && '|' !in order[i].0
  }

  predicate FieldsPipeFree(fields: map<string, string>) {
    forall k :: k in fields ==> '|' !in fields[k]
  }

  /** A metadata row begins with a pipe and matches the row pattern with
      its key and its value stripped. */
  lemma FieldRowRead(key: string, value: string)
    requires Stripped(key) && '|' !in key && '|' !in value
    ensures StartsPipe(FieldRowLine(key, value))
    ensures MdRow(Strip(FieldRowLine(key, value))) == Some((key, Strip(value)))
  {
    FieldRowIsRowLine(key, value);
    RowLinePipe([PadRight(key, 22), value]);
    PadRightChars(key, 22);
    RowLineMdRow(PadRight(key, 22), value);
    StripPadRight(key, 22);
  }

  /** The record with every key in keys set to its stripped value in
      fields. */
  function Overlay(acc: map<string, string>, keys: set<string>, fields: map<string, string>): (r: map<string, string>)
    ensures r.Keys == acc.Keys
    ensures forall k :: k in acc ==> r[k] == if k in keys then Strip(Get(fields, k)) else acc[k]
  {
    map k | k in acc :: if k in keys then Strip(Get(fields, k)) else acc[k]
  }

  lemma OverlayNone(acc: map<string, string>, fields: map<string, string>)
    ensures Overlay(acc, {}, fields) == acc
  {
  }

  lemma OverlayAll(acc: map<string, string>, keys: set<string>, fields: map<string, string>)
    requires acc.Keys == keys
    ensures Overlay(acc, keys, fields) == map k | k in keys :: Strip(Get(fields, k))
  {
  }

  /** Setting one key first, then overlaying, is overlaying with that key
      added. */
  lemma OverlayStep(acc: map<string, string>, key: string, keys: set<string>, fields: map<string, string>)
    ensures Overlay(if key in acc then acc[key := Strip(Get(fields, key))] else acc, keys, fields)
         == Overlay(acc, {key} + keys, fields)
  {
  }

  /** Rows that begin with a pipe and match the row pattern, row i with
      the i-th key of the order and that key's stripped value in fields. */
  predicate RowsSay(rows: seq<string>, order: seq<(string, string)>, fields: map<string, string>) {
    |rows| == |order|
    && forall i :: 0 <= i < |rows| ==>
         StartsPipe(rows[i]) && MdRow(Strip(rows[i])) == Some((order[i].0, Strip(Get(fields, order[i].0))))
  }

  lemma RowsSayPipe(rows: seq<string>, order: seq<(string, string)>, fields: map<string, string>)
    requires RowsSay(rows, order, fields)
    ensures PipeLines(rows)
  {
  }

  /** The metadata rows the writer writes for an order say the record's
      values. */
  lemma WrittenRowsSay(fields: map<string, string>, order: seq<(string, string)>)
    requires KeysReadable(order) && FieldsPipeFree(fields)
    ensures RowsSay(FieldRowsFor(fields, order), order, fields)
  {
    var rows := FieldRowsFor(fields, order);
    forall i | 0 <= i < |rows|
      ensures StartsPipe(rows[i]) && MdRow(Strip(rows[i])) == Some((order[i].0, Strip(Get(fields, order[i].0))))
    {
      var raw := Get(fields, order[i].0);
      assert '|' !in raw;
      assert '|' !in Strip(raw);
      FieldRowRead(order[i].0, Strip(raw));
      StripIdempotent(raw);
    }
  }

  /** Rows that say a record's values, read from index i on, set every key
      of the record that the order names from i on to its stripped value,
      and leave the rest of the record as it was. */
  lemma {:induction false} FieldRowsRead(rows: seq<string>, order: seq<(string, string)>, fields: map<string, string>, i: nat, acc: map<string, string>)
    requires i <= |order| && RowsSay(rows, order, fields)
    ensures FieldRowsFrom(rows, i, acc) == Overlay(acc, KeysFrom(order, i), fields)
    decreases |order| - i
  {
    if i == |order| {
      assert KeysFrom(order, i) == {};
      OverlayNone(acc, fields);
    } else {
      var key := order[i].0;
      var next := ApplyFieldRow(rows[i], acc);
      RowSaid(rows, order, fields, i, acc);
      FieldRowsRead(rows, order, fields, i + 1, next);
      assert KeysFrom(order, i) == {key} + KeysFrom(order, i + 1);
      OverlayStep(acc, key, KeysFrom(order, i + 1), fields);
    }
  }

  /** Row i of rows that say a record's values sets the i-th key, when the
      record read so far has it. */
  lemma RowSaid(rows: seq<string>, order: seq<(string, string)>, fields: map<string, string>, i: nat, acc: map<string, string>)
    requires i < |order| && RowsSay(rows, order, fields)
    ensures ApplyFieldRow(rows[i], acc)
         == if order[i].0 in acc then acc[order[i].0 := Strip(Get(fields, order[i].0))] else acc
  {
  }

  /** The written metadata keys are read back unchanged. */
  lemma FieldOrderReadable()
    ensures KeysReadable(FieldOrder)
    ensures KeysFrom(FieldOrder, 0) == FieldKeys
  {
    forall i | 0 <= i < |FieldOrder| ensures Stripped(FieldOrder[i].0) && '|' !in FieldOrder[i].0 {
      var k := FieldOrder[i].0;
      assert k[0] != ' ' && k[|k| - 1] != ' ';
    }
  }

  /** The metadata rows of a record read back as the record's value for
      every known key, stripped, and "" for a key the record lacks. */
  lemma FieldRowLinesRead(fields: map<string, string>)
    requires FieldsPipeFree(fields)
    ensures PipeLines(FieldRowLines(fields))
    ensures FieldRowsFrom(FieldRowLines(fields), 0, DefaultFields())
         == map k | k in FieldKeys :: Strip(Get(fields, k))
  {
    FieldOrderReadable();
    WrittenRowsSay(fields, FieldOrder);
    FieldRowsRead(FieldRowLines(fields), FieldOrder, fields, 0, DefaultFields());
    OverlayAll(DefaultFields(), FieldKeys, fields);
    RowsSayPipe(FieldRowLines(fields), FieldOrder, fields);
  }

  // ---------------------------------------------------------------------
  // Write, then read
  // ---------------------------------------------------------------------

  /** No character at which the file's text would be broken into lines. */
  predicate OneLine(s: string) {
    forall c :: c in s ==> !IsLineBreak(c)
  }

  /** An entry the writer's lines describe faithfully and the reader reads
      back: no cell holds a pipe or breaks a line, and no netlist line is
      a "## " header. (The writer puts every cell on the line of its row;
      a cell with a line break in it would split that row in the file.) */
  predicate Wf(e: Entry) {
    SectionsReadable(e) && FieldsPipeFree(e.fields)
    && (forall k :: k in e.fields ==> OneLine(e.fields[k]))
    && (forall r :: r in e.used ==> OneLine(r.pn) && OneLine(r.occ))
    && (forall r, c :: r in e.part + e.pin + e.tests && c in r ==> OneLine(c))
  }

  /** What reading back a written entry gives: every known field with its
      value stripped ("" for a field the record lacks), the Used On pairs
      stripped with blanks filled in ("(None)" and "0", and the single
      pair ("(None)", "0") for no pairs at all), the stripped netlist or
      the placeholder when it is blank, and every fixed-header table with
      a row of dashes in front of its rows, each fitted to the header's
      width and stripped. */
  function Expected(e: Entry): (r: Entry)
    ensures r.fields.Keys == FieldKeys
    ensures |r.used| >= 1 && |r.part| == |e.part| + 1 && |r.pin| == |e.pin| + 1 && |r.tests| == |e.tests| + 1
  {
    Entry(
      map k | k in FieldKeys :: Strip(Get(e.fields, k)),
      ExpectedUsed(e.used),
      NetlistBody(e.netlist),
      ExpectedTable(PartlistHeaders, e.part),
      ExpectedTable(PinHeaders, e.pin),
      ExpectedTable(TestHeaders, e.tests))
  }

  /** Reading what the writer wrote gives the expected record. */
  lemma RoundTrip(e: Entry, date: string)
    requires Wf(e)
    ensures Parse(Render(e, date)) == Expected(e)
  {
    FieldRowLinesRead(e.fields);
    assert Render(e, date) == Document(date, FieldRowLines(e.fields), e);
    ParseDocument(date, FieldRowLines(e.fields), e);
  }

  /** The title read from a written entry is its stripped Title field,
      when that field holds no pipe and no line break. */
  lemma TitleRoundTrip(e: Entry, date: string)
    requires FieldsPipeFree(e.fields) && OneLine(Get(e.fields, "Title"))
    ensures TitleOf(Render(e, date)) == Strip(Get(e.fields, "Title"))
  {
    var rows := FieldRowLines(e.fields);
    var v := Strip(Get(e.fields, "Title"));
    assert '|' !in Get(e.fields, "Title");
    assert rows[0] == FieldRowLine("Title", v);
    TitleRowRead(rows[0], v);
    assert Render(e, date) == Document(date, rows, e);
    DocTitle(date, rows, e);
  }

  /** The Title row is a title row, and its second cell is the value. */
  lemma TitleRowRead(line: string, v: string)
    requires line == FieldRowLine("Title", v) && Stripped(v) && '|' !in v
    ensures IsTitleRow(line) && Cells(line)[1] == v
  {
    var t := "Title";
    assert t[0] == 'T' && t[|t| - 1] == 'e' && '|' !in t;
    FieldRowRead(t, v);
    FieldRowIsRowLine(t, v);
    PadRightChars(t, 22);
    RowLineCells([PadRight(t, 22), v]);
    StripPadRight(t, 22);
    StrippedFixed(v);
    assert Cells(line)[0] == t;
    assert Lower(t) == "title";
  }
}
