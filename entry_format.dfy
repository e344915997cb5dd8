/**
 * The Markdown text of one catalog entry, as the catalog tool writes it.
 *
 * An entry is a metadata table (one row per key of FieldOrder), a "Used On"
 * table of part-number / occurrence pairs, a free-text netlist, and three
 * tables with fixed headers: Partlist, Pin Interface and Tests. Text is
 * modelled as its list of lines, the way the reader splits it on line
 * breaks; the writer's final line break is not a line of its own.
 */
module EntryFormat {
  import opened Text

  /** The metadata keys in table order, each with the placeholder value the
      new-entry template shows for it. */
  const FieldOrder: seq<(string, string)> := [
    ("Title", "Click or tap here to enter text."),
    ("Part Number", "PN-XXX"),
    ("Revision", "A1-00"),
    ("Interface", "I2C / SPI / UART / Analog / Digital"),
    ("Type of Design", "Specialized / Fundamental"),
    ("Level of Novelty", "Inventive / Common"),
    ("Performance Feedback", "Exists / Does Not Exist"),
    ("Verified Performance", "Yes / No")
  ]

  const FieldKeys: set<string> := set p | p in FieldOrder :: p.0

  const PartlistHeaders: seq<string> := ["Ref Des", "Type", "Value/Description"]
  const PinHeaders: seq<string> := ["Pin", "Name", "Description", "Note"]
  const TestHeaders: seq<string> := ["Test No.", "Name", "Description", "Note"]

  const FieldTableHeader: string := "| Field                  | Value                     |"
  const FieldTableDivider: string := "| ---------------------- | ------------------------- |"
  const UsedHeader: string := "| PN         | Occurrences |"
  const UsedDivider: string := "| ---------- | ----------- |"
  /** The row written for an empty Used On list. */
  const UsedNoneRow: string := "| (None)     | 0           |"
  /** The text written for a blank netlist. */
  const NetlistPlaceholder: string := "(paste or type your netlist here)"

  /** One Used On row: a part number and how often the entry occurs on it. */
  datatype UsedRow = UsedRow(pn: string, occ: string)

  /** The record an entry's text is built from and parsed back into. */
  datatype Entry = Entry(
    fields: map<string, string>,
    used: seq<UsedRow>,
    netlist: string,
    part: seq<seq<string>>,
    pin: seq<seq<string>>,
    tests: seq<seq<string>>)

  /** A dictionary lookup with "" for a missing key. */
  function Get(m: map<string, string>, k: string): string {
    if k in m then m[k] else ""
  }

  /** The value itself unless it is empty (Python's `s or default`). */
  function OrElse(s: string, default: string): string {
    if s == "" then default else s
  }

  /** The metadata record with every key present and empty. */
  function DefaultFields(): (f: map<string, string>)
    ensures f.Keys == FieldKeys
    ensures forall k :: k in f ==> f[k] == ""
  {
    map k | k in FieldKeys :: ""
  }

  /** A table row: the cells between "| " and " |", separated by " | ". */
  function RowLine(cells: seq<string>): string {
    "| " + Join(cells, " | ") + " |"
  }

  /** The divider under a header row: as many dashes as each header has
      characters, so that it lines up with the header row. */
  function DividerFor(headers: seq<string>): (r: string)
    ensures |r| == |RowLine(headers)|
    ensures forall c :: c in r ==> c == '|' || c == ' ' || c == '-'
  {
    var dashes := seq(|headers|, i requires 0 <= i < |headers| => Repeat('-', |headers[i]|));
    JoinLengths(dashes, headers, " | ");
    JoinChars(dashes, " | ", {'|', ' ', '-'});
    RowLine(dashes)
  }

  /** Joining pieces as long as other pieces gives a text as long as
      their join. */
  lemma {:induction false} JoinLengths(xs: seq<string>, ys: seq<string>, sep: string)
    requires |xs| == |ys| && forall i :: 0 <= i < |xs| ==> |xs[i]| == |ys[i]|
    ensures |Join(xs, sep)| == |Join(ys, sep)|
    decreases |xs|
  {
    if |xs| > 1 {
      JoinLengths(xs[1..], ys[1..], sep);
    }
  }

  /** A join holds only characters its pieces and its separator hold. */
  lemma {:induction false} JoinChars(xs: seq<string>, sep: string, ok: set<char>)
    requires forall i, k :: 0 <= i < |xs| && 0 <= k < |xs[i]| ==> xs[i][k] in ok
    requires forall c :: c in sep ==> c in ok
    ensures forall c :: c in Join(xs, sep) ==> c in ok
    decreases |xs|
  {
    if |xs| == 1 {
      assert forall c :: c in xs[0] ==> c in ok;
    } else if |xs| > 1 {
      JoinChars(xs[1..], sep, ok);
      assert forall c :: c in xs[0] ==> c in ok;
    }
  }

  /** A row padded with empty cells, or truncated, to exactly n cells. */
  function Fit(row: seq<string>, n: nat): (r: seq<string>)
    ensures |r| == n
    ensures forall i :: 0 <= i < n ==> r[i] == if i < |row| then row[i] else ""
  {
    (row + seq(n, _ => ""))[..n]
  }

  /** The cells of a table line: the stripped line with its outer pipes
      removed, split at the remaining pipes, each piece stripped. */
  function Cells(line: string): seq<string> {
    var pieces := Split(TrimChar(Strip(line), '|'), '|');
    StripAll(pieces)
  }

  /** The two-column row pattern: an already stripped line matches when it
      is "|" A "|" B "|" with A non-empty and neither A nor B holding a pipe;
      the result is the two groups, stripped. (Which blanks the pattern's
      own \s* absorbs is not modelled: every caller strips the groups.) */
  function MdRow(s: string): (r: Option<(string, string)>)
    ensures r.Some? ==> |s| >= 3 && s[0] == '|' && s[|s| - 1] == '|'
    ensures r.Some? ==> CleanGroup(r.value.0) && CleanGroup(r.value.1)
  {
    var p := Split(s, '|');
    if |p| == 4 && p[0] == "" && p[3] == "" && p[1] != "" then
      JoinSplit(s, '|');
      JoinFour(p, ['|']);
      Some((Strip(p[1]), Strip(p[2])))
    else None
  }

  /** A group the row pattern yields: stripped, and holding no pipe. */
  predicate CleanGroup(v: string) {
    Stripped(v) && '|' !in v
  }

  /** A join of four pieces, spelled out. */
  lemma JoinFour(p: seq<string>, sep: string)
    requires |p| == 4
    ensures Join(p, sep) == p[0] + sep + p[1] + sep + p[2] + sep + p[3]
  {
    assert p[1..][1..] == p[2..] && p[2..][1..] == p[3..];
    assert Join(p[3..], sep) == p[3];
    assert Join(p[2..], sep) == p[2] + sep + p[3];
    assert Join(p[1..], sep) == p[1] + sep + (p[2] + sep + p[3]);
  }

  function FieldRowLine(key: string, value: string): string {
    "| " + PadRight(key, 22) + " | " + value + " |"
  }

  function UsedRowLine(r: UsedRow): string {
    "| " + OrElse(r.pn, "(None)") + " | " + OrElse(r.occ, "0") + " |"
  }

  /** The metadata rows: every key of FieldOrder with its value stripped,
      "" when the record lacks the key. */
  function FieldRowLines(fields: map<string, string>): seq<string> {
    FieldRowsFor(fields, FieldOrder)
  }

  /** One row per key of the given order, with that key's stripped value. */
  function FieldRowsFor(fields: map<string, string>, order: seq<(string, string)>): seq<string> {
    seq(|order|, i requires 0 <= i < |order| => FieldRowLine(order[i].0, Strip(Get(fields, order[i].0))))
  }

  function MetaLines(fields: map<string, string>): seq<string> {
    [FieldTableHeader, FieldTableDivider] + FieldRowLines(fields)
  }

  function UsedTableLines(rows: seq<UsedRow>): seq<string> {
    [UsedHeader, UsedDivider] + UsedBodyLines(rows)
  }

  /** The Used On rows: one per pair, or the "(None) | 0" row alone. */
  function UsedBodyLines(rows: seq<UsedRow>): seq<string> {
    if |rows| == 0 then [UsedNoneRow]
    else seq(|rows|, i requires 0 <= i < |rows| => UsedRowLine(rows[i]))
  }

  /** What the netlist section holds: the stripped netlist, or the
      placeholder when nothing is left after stripping. */
  function NetlistBody(netlist: string): string {
    if Strip(netlist) != "" then Strip(netlist) else NetlistPlaceholder
  }

  /** A table: header row, divider, then every row fitted to the header's
      width. */
  function TableLines(headers: seq<string>, rows: seq<seq<string>>): seq<string> {
    [RowLine(headers), DividerFor(headers)]
    + seq(|rows|, k requires 0 <= k < |rows| => RowLine(Fit(rows[k], |headers|)))
  }

  /** The title, a blank line, the date line and a blank line that open
      every entry. */
  function Preamble(date: string): seq<string> {
    ["# Circuit Metadata", "", "**Last Updated:** " + date, ""]
  }

  function UsedSection(rows: seq<UsedRow>): seq<string> {
    ["## Used On", ""] + UsedTableLines(rows)
  }

  function NetlistSection(netlist: string): seq<string> {
    ["## Netlist", ""] + Split(NetlistBody(netlist), '\n')
  }

  function TableSection(heading: string, headers: seq<string>, rows: seq<seq<string>>): seq<string> {
    [heading, ""] + TableLines(headers, rows)
  }

  /** Everything after the metadata table: Used On, Netlist, Partlist, Pin
      Interface and Tests, each after a blank line. */
  function Sections(e: Entry): seq<string> {
    [""] + (UsedSection(e.used) + ([""] + (NetlistSection(e.netlist)
    + ([""] + (TableSection("## Partlist", PartlistHeaders, e.part)
    + ([""] + (TableSection("## Pin Interface", PinHeaders, e.pin)
    + ([""] + TableSection("## Tests", TestHeaders, e.tests)))))))))
  }

  /** The lines of the text written for an entry, the date being the day of
      writing. */
  function Render(e: Entry, date: string): (r: seq<string>)
    ensures var u, n := |UsedBodyLines(e.used)|, |Split(NetlistBody(e.netlist), '\n')|;
      && |r| == 37 + u + n + |e.part| + |e.pin| + |e.tests|
      && r[2] == "**Last Updated:** " + date
      && r[15] == "## Used On" && r[20 + u] == "## Netlist"
      && r[23 + u + n] == "## Partlist"
      && r[28 + u + n + |e.part|] == "## Pin Interface"
      && r[33 + u + n + |e.part| + |e.pin|] == "## Tests"
  {
    RenderLayout(e, date);
    Preamble(date) + (MetaLines(e.fields) + Sections(e))
  }

  /** Render's layout, stated of the lines it joins. */
  lemma RenderLayout(e: Entry, date: string)
    ensures var r := Preamble(date) + (MetaLines(e.fields) + Sections(e));
      var u, n := |UsedBodyLines(e.used)|, |Split(NetlistBody(e.netlist), '\n')|;
      && |r| == 37 + u + n + |e.part| + |e.pin| + |e.tests|
      && r[2] == "**Last Updated:** " + date
      && r[15] == "## Used On" && r[20 + u] == "## Netlist"
      && r[23 + u + n] == "## Partlist"
      && r[28 + u + n + |e.part|] == "## Pin Interface"
      && r[33 + u + n + |e.part| + |e.pin|] == "## Tests"
  {
    SectionsLayout(e);
    AfterHead(Preamble(date), MetaLines(e.fields), Sections(e));
  }

  /** The lines after a four-line preamble and a ten-line metadata
      table. */
  lemma AfterHead(pre: seq<string>, meta: seq<string>, s: seq<string>)
    requires |pre| == 4 && |meta| == 10
    ensures |pre + (meta + s)| == 14 + |s| && (pre + (meta + s))[2] == pre[2]
    ensures forall i :: 0 <= i < |s| ==> (pre + (meta + s))[14 + i] == s[i]
  {
  }

  /** Where each heading sits among the sections: u Used On rows and n
      netlist lines before the tables. */
  lemma SectionsLayout(e: Entry)
    ensures var u, n := |UsedBodyLines(e.used)|, |Split(NetlistBody(e.netlist), '\n')|;
      var s := Sections(e);
      && |s| == 23 + u + n + |e.part| + |e.pin| + |e.tests|
      && s[1] == "## Used On" && s[6 + u] == "## Netlist"
      && s[9 + u + n] == "## Partlist"
      && s[14 + u + n + |e.part|] == "## Pin Interface"
      && s[19 + u + n + |e.part| + |e.pin|] == "## Tests"
  {
    var t3 := [""] + TableSection("## Tests", TestHeaders, e.tests);
    var t2 := [""] + (TableSection("## Pin Interface", PinHeaders, e.pin) + t3);
    var t1 := [""] + (TableSection("## Partlist", PartlistHeaders, e.part) + t2);
    var t0 := [""] + (NetlistSection(e.netlist) + t1);
    assert Sections(e) == [""] + (UsedSection(e.used) + t0);
    assert |t3| == 5 + |e.tests| && t3[1] == "## Tests";
    assert |t2| == 10 + |e.pin| + |e.tests| && t2[1] == "## Pin Interface" && t2[6 + |e.pin|] == "## Tests";
  }

  /** The lines of a freshly created entry, the date being the day the
      program started: the opening lines, the metadata table with every
      field's placeholder, and the sections, each paragraph after the
      blank line that separates it from the one before. */
  function NewEntryTemplate(date: string): (r: seq<string>)
    ensures |r| == 39 && r[2] == "**Last Updated:** " + date
    ensures r[15] == "## Used On" && r[21] == "## Netlist" && r[25] == "## Partlist"
    ensures r[30] == "## Pin Interface" && r[35] == "## Tests"
  {
    Preamble(date) + (([FieldTableHeader, FieldTableDivider] + TemplateFieldLines) + TemplateSectionLines)
  }

  /** The template's metadata rows, values padded to 25 characters. */
  const TemplateFieldLines: seq<string> :=
    ["| Title                  | Click or tap here to enter text. |",
     "| Part Number            | PN-XXX                    |",
     "| Revision               | A1-00                     |",
     "| Interface              | I2C / SPI / UART / Analog / Digital |",
     "| Type of Design         | Specialized / Fundamental |",
     "| Level of Novelty       | Inventive / Common        |",
     "| Performance Feedback   | Exists / Does Not Exist   |",
     "| Verified Performance   | Yes / No                  |"]

  /** The template's sections: Used On with the "(None)" row, the netlist
      placeholder, and the three tables with no rows. */
  const TemplateSectionLines: seq<string> :=
    [""] + (["## Used On", "", UsedHeader, UsedDivider, UsedNoneRow]
    + ([""] + (["## Netlist", "", NetlistPlaceholder]
    + ([""] + (["## Partlist", "", RowLine(PartlistHeaders), DividerFor(PartlistHeaders)]
    + ([""] + (["## Pin Interface", "", RowLine(PinHeaders), DividerFor(PinHeaders)]
    + ([""] + ["## Tests", "", RowLine(TestHeaders), DividerFor(TestHeaders)]))))))))


  // ---------------------------------------------------------------------
  // The writer, step by step
  // ---------------------------------------------------------------------

  /** Header row, divider, and one row per input row, each fitted to the
      header's width. */
  method BuildTable(headers: seq<string>, rows: seq<seq<string>>) returns (out: seq<string>)
    ensures out == TableLines(headers, rows)
  {
    out := [RowLine(headers), DividerFor(headers)];
    for k := 0 to |rows|
      invariant out == [RowLine(headers), DividerFor(headers)]
                       + seq(k, j requires 0 <= j < k => RowLine(Fit(rows[j], |headers|)))
    {
      var rr := Fit(rows[k], |headers|);
      out := out + [RowLine(rr)];
    }
  }

  /** The metadata table: header, divider and one row per key of
      FieldOrder. */
  method BuildMetaLines(fields: map<string, string>) returns (meta: seq<string>)
    ensures meta == MetaLines(fields)
  {
    var rows := BuildFieldRows(fields, FieldOrder);
    meta := [FieldTableHeader, FieldTableDivider] + rows;
  }

  /** The metadata rows, one key at a time in the given order. */
  method BuildFieldRows(fields: map<string, string>, order: seq<(string, string)>) returns (rows: seq<string>)
    ensures rows == FieldRowsFor(fields, order)
  {
    ghost var all := FieldRowsFor(fields, order);
    rows := [];
    for i := 0 to |order|
      invariant rows == all[..i]
    {
      var key := order[i].0;
      var line := FieldRowLine(key, Strip(Get(fields, key)));
      assert all[..i + 1] == all[..i] + [line];
      rows := rows + [line];
    }
    assert all[..|order|] == all;
  }

  /** The Used On table: one row per pair, or the "(None) | 0" row when
      there are none. */
  method BuildUsedLines(rows: seq<UsedRow>) returns (used: seq<string>)
    ensures used == UsedTableLines(rows)
  {
    used := [UsedHeader, UsedDivider];
    if |rows| > 0 {
      for i := 0 to |rows|
        invariant used == [UsedHeader, UsedDivider] + seq(i, j requires 0 <= j < i => UsedRowLine(rows[j]))
      {
        used := used + [UsedRowLine(rows[i])];
      }
    } else {
      used := used + [UsedNoneRow];
    }
  }

  /** The text of an entry, written section by section. */
  method BuildMarkdown(e: Entry, date: string) returns (lines: seq<string>)
    ensures lines == Render(e, date)
  {
    var meta := BuildMetaLines(e.fields);
    var usedTable := BuildUsedLines(e.used);
    var used := ["## Used On", ""] + usedTable;
    var net := ["## Netlist", ""] + Split(NetlistBody(e.netlist), '\n');
    var partTable := BuildTable(PartlistHeaders, e.part);
    var pinTable := BuildTable(PinHeaders, e.pin);
    var testTable := BuildTable(TestHeaders, e.tests);
    var part := ["## Partlist", ""] + partTable;
    var pin := ["## Pin Interface", ""] + pinTable;
    var tests := ["## Tests", ""] + testTable;
    assert used == UsedSection(e.used);
    assert net == NetlistSection(e.netlist);
    assert part == TableSection("## Partlist", PartlistHeaders, e.part);
    assert pin == TableSection("## Pin Interface", PinHeaders, e.pin);
    assert tests == TableSection("## Tests", TestHeaders, e.tests);
    lines := ["# Circuit Metadata", "", "**Last Updated:** " + date, ""]
      + (meta + ([""] + (used + ([""] + (net + ([""] + (part + ([""] + (pin + ([""] + tests))))))))));
  }

  // ---------------------------------------------------------------------
  // How table lines split back into cells
  // ---------------------------------------------------------------------

  /** Cells with one blank on each side, as RowLine lays them out. */
  function Padded(cells: seq<string>): seq<string> {
    seq(|cells|, i requires 0 <= i < |cells| => " " + cells[i] + " ")
  }

  predicate PipeFree(cells: seq<string>) {
    forall c :: c in cells ==> '|' !in c
  }

  lemma {:induction false} InnerSplit(cells: seq<string>)
    requires |cells| >= 1 && PipeFree(cells)
    ensures Split(" " + Join(cells, " | ") + " ", '|') == Padded(cells)
    decreases |cells|
  {
    if |cells| == 1 {
      SplitNoSeparator(" " + cells[0] + " ", '|');
    } else {
      var j := Join(cells[1..], " | ");
      assert " " + Join(cells, " | ") + " " == (" " + cells[0] + " ") + ['|'] + (" " + j + " ");
      InnerSplit(cells[1..]);
      SplitConcat(" " + cells[0] + " ", " " + j + " ", '|');
      SplitNoSeparator(" " + cells[0] + " ", '|');
      assert Padded(cells) == [" " + cells[0] + " "] + Padded(cells[1..]);
    }
  }

  /** A rendered row splits at its pipes into an empty piece, each cell with
      its surrounding blanks, and a final empty piece. */
  lemma RowLineSplit(cells: seq<string>)
    requires |cells| >= 1 && PipeFree(cells)
    ensures Split(RowLine(cells), '|') == [""] + Padded(cells) + [""]
  {
    var m := " " + Join(cells, " | ") + " ";
    assert RowLine(cells) == "" + ['|'] + (m + ['|'] + "");
    SplitConcat("", m + ['|'] + "", '|');
    SplitConcat(m, "", '|');
    InnerSplit(cells);
  }

  /** Reading a rendered row's cells gives the cells back, stripped: the row
      has exactly as many cells as it was written with. */
  lemma RowLineCells(cells: seq<string>)
    requires |cells| >= 1 && PipeFree(cells)
    ensures Cells(RowLine(cells)) == StripAll(cells)
  {
    var line := RowLine(cells);
    var m := " " + Join(cells, " | ") + " ";
    StripNonSpaceEnds(line);
    assert line == ['|'] + m + ['|'];
    assert TrimCharLeft(line, '|') == m + ['|'] by {
      assert line[1..] == m + ['|'];
    }
    assert TrimCharRight(m + ['|'], '|') == m by {
      assert (m + ['|'])[..|m|] == m;
    }
    InnerSplit(cells);
    forall i | 0 <= i < |cells|
      ensures Strip(Padded(cells)[i]) == Strip(cells[i])
    {
      StripPadded(" ", cells[i], " ");
    }
  }

  /** A rendered two-cell row matches the row pattern, giving both cells
      stripped. */
  lemma RowLineMdRow(a: string, b: string)
    requires '|' !in a && '|' !in b
    ensures MdRow(Strip(RowLine([a, b]))) == Some((Strip(a), Strip(b)))
  {
    var line := RowLine([a, b]);
    StripNonSpaceEnds(line);
    RowLineSplit([a, b]);
    var p := Split(line, '|');
    assert Padded([a, b]) == [" " + a + " ", " " + b + " "];
    assert p == ["", " " + a + " ", " " + b + " ", ""];
    assert p[1] != "" by { assert |p[1]| == |a| + 2; }
    StripPadded(" ", a, " ");
    StripPadded(" ", b, " ");
  }

  lemma JoinTwo(a: string, b: string, sep: string)
    ensures Join([a, b], sep) == a + sep + b
  {
    assert [a, b][1..] == [b];
  }

  lemma FieldRowIsRowLine(key: string, value: string)
    ensures FieldRowLine(key, value) == RowLine([PadRight(key, 22), value])
  {
    JoinTwo(PadRight(key, 22), value, " | ");
  }

  lemma UsedRowIsRowLine(r: UsedRow)
    ensures UsedRowLine(r) == RowLine([OrElse(r.pn, "(None)"), OrElse(r.occ, "0")])
  {
    JoinTwo(OrElse(r.pn, "(None)"), OrElse(r.occ, "0"), " | ");
  }

  /** The divider's cells are runs of dashes, one per header, as long as the
      header text. */
  lemma {:induction false} DividerCells(headers: seq<string>)
    requires |headers| >= 1
    ensures Cells(DividerFor(headers)) == Dashes(headers)
  {
    var dashes := Dashes(headers);
    forall c | c in dashes ensures '|' !in c && Stripped(c) {
      var i :| 0 <= i < |dashes| && dashes[i] == c;
      assert forall k :: 0 <= k < |c| ==> c[k] == '-';
    }
    RowLineCells(dashes);
    forall i | 0 <= i < |dashes| ensures Strip(dashes[i]) == dashes[i] {
      assert dashes[i] in dashes;
      StrippedFixed(dashes[i]);
    }
  }

  /** Every cell of a row, stripped. */
  function StripAll(cells: seq<string>): (r: seq<string>)
    ensures |r| == |cells|
    ensures forall i :: 0 <= i < |cells| ==> r[i] == Strip(cells[i])
  {
    seq(|cells|, i requires 0 <= i < |cells| => Strip(cells[i]))
  }

  /** The dash runs of a divider, one per header, as long as the header. */
  function Dashes(headers: seq<string>): (r: seq<string>)
    ensures |r| == |headers|
    ensures forall i :: 0 <= i < |headers| ==> r[i] == Repeat('-', |headers[i]|)
  {
    seq(|headers|, i requires 0 <= i < |headers| => Repeat('-', |headers[i]|))
  }

  /** A row fitted to n cells keeps the row free of pipes. */
  lemma FitPipeFree(row: seq<string>, n: nat)
    requires PipeFree(row)
    ensures PipeFree(Fit(row, n))
  {
    var f := Fit(row, n);
    forall c | c in f ensures '|' !in c {
      var i :| 0 <= i < |f| && f[i] == c;
      if i < |row| { assert row[i] in row; }
    }
  }

  /** build_table's shape: the header row, a divider whose i-th cell is
      |headers[i]| dashes, then for each input row a line that reads back as
      that row fitted to the header's width, every cell stripped. */
  lemma TableShape(headers: seq<string>, rows: seq<seq<string>>)
    requires |headers| >= 1 && PipeFree(headers)
    requires forall r :: r in rows ==> PipeFree(r)
    ensures |TableLines(headers, rows)| == |rows| + 2
    ensures Cells(TableLines(headers, rows)[0]) == StripAll(headers)
    ensures Cells(TableLines(headers, rows)[1]) == Dashes(headers)
    ensures forall k :: 0 <= k < |rows| ==>
              Cells(TableLines(headers, rows)[k + 2]) == StripAll(Fit(rows[k], |headers|))
  {
    RowLineCells(headers);
    DividerCells(headers);
    forall k | 0 <= k < |rows|
      ensures Cells(TableLines(headers, rows)[k + 2]) == StripAll(Fit(rows[k], |headers|))
    {
      assert rows[k] in rows;
      TableRowCells(headers, rows, k);
    }
  }

  lemma TableRowCells(headers: seq<string>, rows: seq<seq<string>>, k: nat)
    requires |headers| >= 1 && k < |rows| && PipeFree(rows[k])
    ensures Cells(TableLines(headers, rows)[k + 2]) == StripAll(Fit(rows[k], |headers|))
  {
    assert TableLines(headers, rows)[k + 2] == RowLine(Fit(rows[k], |headers|));
    FitPipeFree(rows[k], |headers|);
    RowLineCells(Fit(rows[k], |headers|));
  }
}
