/**
 * Reading an entry's text back into a record.
 *
 * The reader is tolerant: it looks sections up by a trimmed, case-insensitive
 * "## name" match, takes the first metadata table it finds, and reads the
 * other tables as runs of lines that begin with a pipe. Every scan of the
 * reader has one of three shapes over a line test: the first line from an
 * index on that passes the test; the same, with the end of the text when
 * none does; and the run of passing lines from an index on. The shapes are
 * defined once, with the test as a parameter, and their lemmas are proved
 * once. The reader itself is a set of methods that walk an index over the
 * lines, the way the original does, each proved equal to its shape.
 */
module EntryParse {
  import opened Text
  import opened EntryFormat

  // ---------------------------------------------------------------------
  // Line tests
  // ---------------------------------------------------------------------

  /** The Markdown header a section is looked up by, lower-cased. */
  function SectionHeader(title: string): string {
    Lower("## " + title)
  }

  predicate IsHeaderLine(line: string, header: string) {
    Lower(Strip(line)) == header
  }

  /** The section lookup's test for one header. */
  function HeaderTest(header: string): string -> bool {
    line => IsHeaderLine(line, header)
  }

  /** A line that begins, once stripped, with a pipe. */
  predicate StartsPipe(line: string) {
    var t := Strip(line);
    |t| > 0 && t[0] == '|'
  }

  /** A line that does not begin, once stripped, with "## ". */
  predicate NotSectionLine(line: string) {
    var t := Strip(line);
    !(|t| >= 3 && t[0] == '#' && t[1] == '#' && t[2] == ' ')
  }

  /** The metadata table's header row: once stripped and lower-cased it
      begins with "| field", and the lower-cased line holds "| value". */
  predicate IsFieldHeader(line: string) {
    StartsWith(Lower(Strip(line)), "| field") && Contains(Lower(line), "| value")
  }

  /** A line that begins with a pipe and whose first cell reads "title" in
      any case, with a second cell after it. */
  predicate IsTitleRow(line: string) {
    StartsPipe(line) && |Cells(line)| >= 2 && Lower(Cells(line)[0]) == "title"
  }

  // ---------------------------------------------------------------------
  // The three shapes of scan
  // ---------------------------------------------------------------------

  /** The first index from i on whose line passes the test, or None. */
  function FirstFrom(lines: seq<string>, test: string -> bool, i: nat): (r: Option<nat>)
    ensures r.Some? ==> i <= r.value < |lines| && test(lines[r.value])
    decreases |lines| - i
  {
    if i >= |lines| then None
    else if test(lines[i]) then Some(i)
    else FirstFrom(lines, test, i + 1)
  }

  /** The first index from j on whose line passes the test; the end of the
      lines (or j itself, past the end) when there is none. */
  function SkipUntil(lines: seq<string>, test: string -> bool, j: nat): (r: nat)
    ensures r >= j
    decreases |lines| - j
  {
    if j < |lines| && !test(lines[j]) then SkipUntil(lines, test, j + 1) else j
  }

  /** What the lines of the run from j on that pass the test give, one
      after the other. */
  function RunFrom<R>(lines: seq<string>, j: nat, keep: string -> bool, item: string -> seq<R>): seq<R>
    decreases |lines| - j
  {
    if j < |lines| && keep(lines[j]) then item(lines[j]) + RunFrom(lines, j + 1, keep, item) else []
  }

  /** The run read after a found line: from the first passing line after
      it, skip a fixed number of lines, then take the run. Nothing when no
      line was found. */
  function SkipRun<R>(lines: seq<string>, at: Option<nat>, off: nat, keep: string -> bool, item: string -> seq<R>): seq<R> {
    match at
    case None => []
    case Some(u) => RunFrom(lines, SkipUntil(lines, keep, u + 1) + off, keep, item)
  }

  /** The run of passing lines from j on, each applied in order to an
      accumulated value. */
  function FoldRun<A>(lines: seq<string>, j: nat, keep: string -> bool, step: (string, A) -> A, acc: A): A
    decreases |lines| - j
  {
    if j < |lines| && keep(lines[j]) then FoldRun(lines, j + 1, keep, step, step(lines[j], acc)) else acc
  }

  /** The run that starts a fixed number of lines after the first found
      line, applied to an accumulated value; the value unchanged when no
      line is found. */
  function FirstFold<A>(lines: seq<string>, found: string -> bool, off: nat, keep: string -> bool, step: (string, A) -> A, acc: A): A {
    match FirstFrom(lines, found, 0)
    case None => acc
    case Some(h) => FoldRun(lines, h + off, keep, step, acc)
  }

  // ---------------------------------------------------------------------
  // The scans of the reader
  // ---------------------------------------------------------------------

  /** The index of the first line that is the given header, or None. */
  function FindHeader(lines: seq<string>, header: string): (r: Option<nat>)
    ensures r.Some? ==> r.value < |lines|
  {
    FirstFrom(lines, HeaderTest(header), 0)
  }

  /** The first index from j on whose line begins with a pipe. */
  function SkipNonPipe(lines: seq<string>, j: nat): (r: nat)
    ensures r >= j
  {
    SkipUntil(lines, StartsPipe, j)
  }

  /** A line as a run item of its own. */
  function LineOf(line: string): seq<string> {
    [line]
  }

  /** A table line as a run item: its cells. */
  function CellsRow(line: string): seq<seq<string>> {
    [Cells(line)]
  }

  /** The Used On row a line holds: one when it matches the two-column
      pattern, none otherwise. */
  function UsedRowOf(line: string): (r: seq<UsedRow>)
    ensures |r| <= 1
  {
    match MdRow(Strip(line))
    case None => []
    case Some(fv) => [UsedRow(fv.0, fv.1)]
  }

  /** The Used On rows from index j: up to the first line that does not
      begin with a pipe, each line that matches the two-column pattern. */
  function UsedRowsFrom(lines: seq<string>, j: nat): seq<UsedRow> {
    RunFrom(lines, j, StartsPipe, UsedRowOf)
  }

  /** The cells of every line of the run of pipe lines that starts at j. */
  function TableRowsFrom(lines: seq<string>, j: nat): seq<seq<string>> {
    RunFrom(lines, j, StartsPipe, CellsRow)
  }

  /** The lines from index j up to the next "## " header. */
  function ChunkFrom(lines: seq<string>, j: nat): seq<string> {
    RunFrom(lines, j, NotSectionLine, LineOf)
  }

  /** One metadata row applied to the record: a row that matches the
      two-column pattern with a known field name sets that field; any
      other row changes nothing. */
  function ApplyFieldRow(line: string, fields: map<string, string>): (r: map<string, string>)
    ensures r.Keys == fields.Keys
  {
    match MdRow(Strip(line))
    case None => fields
    case Some(fv) => if fv.0 in fields then fields[fv.0 := fv.1] else fields
  }

  /** The metadata rows from index i: every line up to the first one that
      does not begin with a pipe, applied in order. */
  function FieldRowsFrom(lines: seq<string>, i: nat, fields: map<string, string>): map<string, string> {
    FoldRun(lines, i, StartsPipe, ApplyFieldRow, fields)
  }

  /** The record read from the first metadata table: its header row and
      the line after it (the divider) are skipped, then its rows are
      applied; without a header row the record is left as it is. */
  function FieldScan(lines: seq<string>, fields: map<string, string>): (r: map<string, string>)
    ensures r.Keys == fields.Keys
  {
    FieldScanKeys(lines, fields);
    FirstFold(lines, IsFieldHeader, 2, StartsPipe, ApplyFieldRow, fields)
  }

  /** The lines the test passes removed from the front. */
  function DropLeading(c: seq<string>, drop: string -> bool): (r: seq<string>)
    ensures |r| <= |c|
    decreases |c|
  {
    if |c| > 0 && drop(c[0]) then DropLeading(c[1..], drop) else c
  }

  /** The lines the test passes removed from the back. */
  function DropTrailing(c: seq<string>, drop: string -> bool): (r: seq<string>)
    ensures |r| <= |c|
    decreases |c|
  {
    if |c| > 0 && drop(c[|c| - 1]) then DropTrailing(c[..|c| - 1], drop) else c
  }

  /** The Used On rows: after the section header, the first pipe line is
      the table header; it and the divider after it are skipped. No Used On
      section gives no rows. */
  function UsedOf(lines: seq<string>): seq<UsedRow> {
    UsedAt(lines, FindHeader(lines, SectionHeader("Used On")))
  }

  function UsedAt(lines: seq<string>, at: Option<nat>): seq<UsedRow> {
    SkipRun(lines, at, 2, StartsPipe, UsedRowOf)
  }

  /** The netlist: the lines between the Netlist header and the next "## "
      header, without blank lines at either end, joined by line breaks. No
      Netlist section gives "". */
  function NetlistOf(lines: seq<string>): string {
    NetlistAt(lines, FindHeader(lines, SectionHeader("Netlist")))
  }

  function NetlistAt(lines: seq<string>, at: Option<nat>): string {
    match at
    case None => ""
    case Some(k) => Join(DropTrailing(DropLeading(ChunkFrom(lines, k + 1), IsBlank), IsBlank), "\n")
  }

  /** The rows of the table after a given line: the first pipe line after
      it is taken as the header and skipped; every pipe line from the next
      one on is a row. */
  function TableAt(lines: seq<string>, at: Option<nat>): seq<seq<string>> {
    SkipRun(lines, at, 1, StartsPipe, CellsRow)
  }

  function TableOf(lines: seq<string>, title: string): seq<seq<string>> {
    TableAt(lines, FindHeader(lines, SectionHeader(title)))
  }

  /** The record read from an entry's lines. */
  function Parse(lines: seq<string>): (e: Entry)
    ensures e.fields.Keys == FieldKeys
  {
    Entry(
      FieldScan(lines, DefaultFields()),
      UsedOf(lines),
      NetlistOf(lines),
      TableOf(lines, "Partlist"),
      TableOf(lines, "Pin Interface"),
      TableOf(lines, "Tests"))
  }

  /** The Title cell: the second cell of the first title row; "" when there
      is none. */
  function TitleOf(lines: seq<string>): (t: string)
    ensures Stripped(t)
    ensures (forall k :: 0 <= k < |lines| ==> !IsTitleRow(lines[k])) ==> t == ""
    ensures forall h ::
              0 <= h < |lines| && IsTitleRow(lines[h]) && (forall k :: 0 <= k < h ==> !IsTitleRow(lines[k]))
              ==> t == Cells(lines[h])[1]
  {
    FirstFromSpec(lines, IsTitleRow, 0);
    FirstFromFirst(lines, IsTitleRow);
    match FirstFrom(lines, IsTitleRow, 0)
    case None => ""
    case Some(k) => Cells(lines[k])[1]
  }

  /** The text of an entry file as read, or the failure to read it. */
  datatype FileText = Unreadable | Lines(lines: seq<string>)

  // ---------------------------------------------------------------------
  // The reader, step by step
  // ---------------------------------------------------------------------

  /** The index of the first line that reads "## <title>" once stripped,
      in any case. */
  method FindSection(lines: seq<string>, title: string) returns (r: Option<nat>)
    ensures r == FindHeader(lines, SectionHeader(title))
  {
    var header := SectionHeader(title);
    var i := 0;
    while i < |lines|
      invariant FirstFrom(lines, HeaderTest(header), 0) == FirstFrom(lines, HeaderTest(header), i)
    {
      if IsHeaderLine(lines[i], header) {
        return Some(i);
      }
      i := i + 1;
    }
    return None;
  }

  /** Concatenation regroups freely. */
  lemma Assoc<T>(a: seq<T>, b: seq<T>, c: seq<T>)
    ensures a + (b + c) == (a + b) + c
  {
  }

  /** The metadata record: every key empty, then the rows of the first
      metadata table applied. */
  method ScanFields(lines: seq<string>) returns (fields: map<string, string>)
    ensures fields == FieldScan(lines, DefaultFields())
  {
    fields := DefaultFields();
    var n := |lines|;
    var i := 0;
    while i < n
      invariant fields == DefaultFields()
      invariant FirstFrom(lines, IsFieldHeader, 0) == FirstFrom(lines, IsFieldHeader, i)
    {
      if IsFieldHeader(lines[i]) {
        fields := ApplyRows(lines, i + 2, fields);
        return;
      }
      i := i + 1;
    }
  }

  /** The metadata rows from index i0 on applied to the record, up to the
      first line that does not begin with a pipe. */
  method ApplyRows(lines: seq<string>, i0: nat, fields0: map<string, string>) returns (fields: map<string, string>)
    ensures fields == FieldRowsFrom(lines, i0, fields0)
  {
    fields := fields0;
    var i := i0;
    while i < |lines| && StartsPipe(lines[i])
      invariant FieldRowsFrom(lines, i0, fields0) == FieldRowsFrom(lines, i, fields)
    {
      fields := ApplyFieldRow(lines[i], fields);
      i := i + 1;
    }
  }

  /** The Used On rows, read after the line of the Used On header; none
      when there is no such line. */
  method ParseUsed(lines: seq<string>, uix: Option<nat>) returns (used: seq<UsedRow>)
    ensures used == UsedAt(lines, uix)
  {
    used := [];
    if uix.None? {
      return;
    }
    var j := SkipToPipe(lines, uix.value + 1);
    UsedAtSome(lines, uix.value, j + 2);
    used := ReadUsedRows(lines, j + 2);
  }

  /** The first pipe line from j0 on, found line by line; the end of the
      lines when there is none. */
  method SkipToPipe(lines: seq<string>, j0: nat) returns (j: nat)
    ensures j == SkipNonPipe(lines, j0)
  {
    j := j0;
    while j < |lines| && !StartsPipe(lines[j])
      invariant SkipNonPipe(lines, j0) == SkipNonPipe(lines, j)
      decreases |lines| - j
    {
      j := j + 1;
    }
  }

  /** The Used On pairs of the run of pipe lines from j0 on. */
  method ReadUsedRows(lines: seq<string>, j0: nat) returns (used: seq<UsedRow>)
    ensures used == UsedRowsFrom(lines, j0)
  {
    used := [];
    var j := j0;
    while j < |lines| && StartsPipe(lines[j])
      invariant UsedRowsFrom(lines, j0) == used + UsedRowsFrom(lines, j)
      decreases |lines| - j
    {
      Assoc(used, UsedRowOf(lines[j]), UsedRowsFrom(lines, j + 1));
      used := used + UsedRowOf(lines[j]);
      j := j + 1;
    }
  }

  /** The netlist text, read after the line of the Netlist header; ""
      when there is no such line. */
  method ParseNetlist(lines: seq<string>, nix: Option<nat>) returns (netlist: string)
    ensures netlist == NetlistAt(lines, nix)
  {
    netlist := "";
    if nix.None? {
      return;
    }
    var chunk := ReadChunk(lines, nix.value + 1);
    chunk := TrimBlankLines(chunk);
    netlist := Join(chunk, "\n");
  }

  /** The lines from index j0 up to the next "## " header. */
  method ReadChunk(lines: seq<string>, j0: nat) returns (chunk: seq<string>)
    ensures chunk == ChunkFrom(lines, j0)
  {
    var n := |lines|;
    var j := j0;
    chunk := [];
    while j < n && NotSectionLine(lines[j])
      invariant ChunkFrom(lines, j0) == chunk + ChunkFrom(lines, j)
    {
      Assoc(chunk, [lines[j]], ChunkFrom(lines, j + 1));
      chunk := chunk + [lines[j]];
      j := j + 1;
    }
    assert ChunkFrom(lines, j) == [];
  }

  /** Blank lines popped from the front of a chunk, then from its back. */
  method TrimBlankLines(chunk0: seq<string>) returns (chunk: seq<string>)
    ensures chunk == DropTrailing(DropLeading(chunk0, IsBlank), IsBlank)
  {
    chunk := chunk0;
    while |chunk| > 0 && IsBlank(chunk[0])
      invariant DropLeading(chunk0, IsBlank) == DropLeading(chunk, IsBlank)
    {
      chunk := chunk[1..];
    }
    assert DropLeading(chunk, IsBlank) == chunk;
    ghost var front := chunk;
    while |chunk| > 0 && IsBlank(chunk[|chunk| - 1])
      invariant DropTrailing(front, IsBlank) == DropTrailing(chunk, IsBlank)
    {
      chunk := chunk[..|chunk| - 1];
    }
    assert DropTrailing(chunk, IsBlank) == chunk;
  }

  /** The rows of the table after the given line; none when there is no
      such line. */
  method ParseTable(lines: seq<string>, at: Option<nat>) returns (rows: seq<seq<string>>)
    ensures rows == TableAt(lines, at)
  {
    rows := [];
    if at.None? {
      return;
    }
    var j := SkipToPipe(lines, at.value + 1);
    TableAtSome(lines, at.value, j + 1);
    rows := ReadTableRows(lines, j + 1);
  }

  /** The cells of every line of the run of pipe lines from j0 on. */
  method ReadTableRows(lines: seq<string>, j0: nat) returns (rows: seq<seq<string>>)
    ensures rows == TableRowsFrom(lines, j0)
  {
    rows := [];
    var j := j0;
    while j < |lines| && StartsPipe(lines[j])
      invariant TableRowsFrom(lines, j0) == rows + TableRowsFrom(lines, j)
      decreases |lines| - j
    {
      Assoc(rows, [Cells(lines[j])], TableRowsFrom(lines, j + 1));
      rows := rows + [Cells(lines[j])];
      j := j + 1;
    }
  }

  /** The record read from an entry's lines, section by section. */
  method ParseMarkdown(lines: seq<string>) returns (e: Entry)
    ensures e == Parse(lines)
  {
    var fields := ScanFields(lines);
    var usedAt := FindSection(lines, "Used On");
    var used := ParseUsed(lines, usedAt);
    var netAt := FindSection(lines, "Netlist");
    var netlist := ParseNetlist(lines, netAt);
    var partAt := FindSection(lines, "Partlist");
    var part := ParseTable(lines, partAt);
    var pinAt := FindSection(lines, "Pin Interface");
    var pin := ParseTable(lines, pinAt);
    var testAt := FindSection(lines, "Tests");
    var tests := ParseTable(lines, testAt);
    e := Entry(fields, used, netlist, part, pin, tests);
  }

  /** The Title cell of an entry file, "" when the file cannot be read or
      has no title row. */
  method ReadTitleFromMd(file: FileText) returns (title: string)
    ensures file.Unreadable? ==> title == ""
    ensures file.Lines? ==> title == TitleOf(file.lines)
  {
    if file.Unreadable? {
      return "";
    }
    var lines := file.lines;
    var i := 0;
    while i < |lines|
      invariant FirstFrom(lines, IsTitleRow, 0) == FirstFrom(lines, IsTitleRow, i)
    {
      if IsTitleRow(lines[i]) {
        return Cells(lines[i])[1];
      }
      i := i + 1;
    }
    return "";
  }

  // ---------------------------------------------------------------------
  // What the scans find, for any line test
  // ---------------------------------------------------------------------

  /** A found index moved by a number of lines. */
  function Offset(base: nat, r: Option<nat>): Option<nat> {
    match r
    case None => None
    case Some(x) => Some(base + x)
  }

  /** No line of the block passes the test. */
  predicate NonePass(block: seq<string>, test: string -> bool) {
    forall k :: 0 <= k < |block| ==> !test(block[k])
  }

  /** The scan finds a line exactly when one from i on passes the test,
      and then it finds the first such line. */
  lemma {:induction false} FirstFromSpec(lines: seq<string>, test: string -> bool, i: nat)
    ensures FirstFrom(lines, test, i).None? <==> forall k :: i <= k < |lines| ==> !test(lines[k])
    ensures FirstFrom(lines, test, i).Some? ==>
              forall k :: i <= k < FirstFrom(lines, test, i).value ==> !test(lines[k])
    decreases |lines| - i
  {
    if i < |lines| && !test(lines[i]) {
      FirstFromSpec(lines, test, i + 1);
    }
  }

  /** A line that passes, with none before it from i on, is the one found. */
  lemma {:induction false} FirstFromAt(lines: seq<string>, test: string -> bool, i: nat, h: nat)
    requires i <= h < |lines| && test(lines[h])
    requires forall k :: i <= k < h ==> !test(lines[k])
    ensures FirstFrom(lines, test, i) == Some(h)
    decreases h - i
  {
    if i < h {
      FirstFromAt(lines, test, i + 1, h);
    }
  }

  /** Whichever line passes with none before it is the one found. */
  lemma FirstFromFirst(lines: seq<string>, test: string -> bool)
    ensures forall h :: 0 <= h < |lines| && test(lines[h]) && (forall k :: 0 <= k < h ==> !test(lines[k]))
              ==> FirstFrom(lines, test, 0) == Some(h)
  {
    forall h | 0 <= h < |lines| && test(lines[h]) && (forall k :: 0 <= k < h ==> !test(lines[k]))
      ensures FirstFrom(lines, test, 0) == Some(h)
    {
      FirstFromAt(lines, test, 0, h);
    }
  }

  lemma {:induction false} FirstFromShift(a: seq<string>, b: seq<string>, test: string -> bool, j: nat)
    ensures FirstFrom(a + b, test, |a| + j) == Offset(|a|, FirstFrom(b, test, j))
    decreases |b| - j
  {
    if j < |b| {
      assert (a + b)[|a| + j] == b[j];
      FirstFromShift(a, b, test, j + 1);
    }
  }

  lemma {:induction false} FirstFromSkip(a: seq<string>, b: seq<string>, test: string -> bool, i: nat)
    requires i <= |a| && NonePass(a, test)
    ensures FirstFrom(a + b, test, i) == FirstFrom(a + b, test, |a|)
    decreases |a| - i
  {
    if i < |a| {
      assert (a + b)[i] == a[i];
      FirstFromSkip(a, b, test, i + 1);
    }
  }

  /** Lines in front none of which passes move the found index and change
      nothing else. */
  lemma FirstAppend(a: seq<string>, b: seq<string>, test: string -> bool)
    requires NonePass(a, test)
    ensures FirstFrom(a + b, test, 0) == Offset(|a|, FirstFrom(b, test, 0))
  {
    FirstFromSkip(a, b, test, 0);
    FirstFromShift(a, b, test, 0);
  }

  lemma {:induction false} SkipUntilShift(a: seq<string>, b: seq<string>, test: string -> bool, j: nat)
    ensures SkipUntil(a + b, test, |a| + j) == |a| + SkipUntil(b, test, j)
    decreases |b| - j
  {
    if j < |b| {
      assert (a + b)[|a| + j] == b[j];
      SkipUntilShift(a, b, test, j + 1);
    }
  }

  lemma {:induction false} RunShift<R>(a: seq<string>, b: seq<string>, j: nat, keep: string -> bool, item: string -> seq<R>)
    ensures RunFrom(a + b, |a| + j, keep, item) == RunFrom(b, j, keep, item)
    decreases |b| - j
  {
    if j < |b| {
      assert (a + b)[|a| + j] == b[j];
      RunShift(a, b, j + 1, keep, item);
    }
  }

  /** A run read after a found line reads the same in front of more
      lines, with the found index moved. */
  lemma SkipRunShift<R>(a: seq<string>, b: seq<string>, at: Option<nat>, off: nat, keep: string -> bool, item: string -> seq<R>)
    ensures SkipRun(a + b, Offset(|a|, at), off, keep, item) == SkipRun(b, at, off, keep, item)
  {
    if at.Some? {
      var u := at.value;
      var s := SkipUntil(b, keep, u + 1);
      SkipUntilShift(a, b, keep, u + 1);
      assert |a| + u + 1 == |a| + (u + 1);
      RunShift(a, b, s + off, keep, item);
      assert SkipUntil(a + b, keep, |a| + u + 1) + off == |a| + (s + off);
    }
  }

  /** A run ends where the block ends when the next line stops it: the
      lines after the block are never read. */
  lemma {:induction false} RunStop<R>(m: seq<string>, t: seq<string>, j: nat, keep: string -> bool, item: string -> seq<R>)
    requires j <= |m| && (t == [] || !keep(t[0]))
    ensures RunFrom(m + t, j, keep, item) == RunFrom(m, j, keep, item)
    decreases |m| - j
  {
    if j < |m| {
      assert (m + t)[j] == m[j];
      RunStop(m, t, j + 1, keep, item);
    } else if t != [] {
      assert (m + t)[j] == t[0];
    }
  }

  /** Over lines that all pass and each give one item, the run holds the
      item of every line. */
  lemma {:induction false} RunEach<R>(m: seq<string>, j: nat, keep: string -> bool, item: string -> seq<R>)
    requires j <= |m|
    requires forall k :: j <= k < |m| ==> keep(m[k]) && |item(m[k])| == 1
    ensures |RunFrom(m, j, keep, item)| == |m| - j
    ensures forall k :: 0 <= k < |m| - j ==> RunFrom(m, j, keep, item)[k] == item(m[j + k])[0]
    decreases |m| - j
  {
    if j < |m| {
      RunEach(m, j + 1, keep, item);
      var rest := RunFrom(m, j + 1, keep, item);
      assert RunFrom(m, j, keep, item) == item(m[j]) + rest;
      forall k | 1 <= k < |m| - j
        ensures RunFrom(m, j, keep, item)[k] == item(m[j + k])[0]
      {
        assert RunFrom(m, j, keep, item)[k] == rest[k - 1];
        assert j + 1 + (k - 1) == j + k;
      }
    }
  }

  lemma {:induction false} FoldShift<A>(a: seq<string>, b: seq<string>, j: nat, keep: string -> bool, step: (string, A) -> A, acc: A)
    ensures FoldRun(a + b, |a| + j, keep, step, acc) == FoldRun(b, j, keep, step, acc)
    decreases |b| - j
  {
    if j < |b| {
      assert (a + b)[|a| + j] == b[j];
      FoldShift(a, b, j + 1, keep, step, step(b[j], acc));
    }
  }

  /** A fold ends where the block ends when the next line stops it. */
  lemma {:induction false} FoldStop<A>(m: seq<string>, t: seq<string>, j: nat, keep: string -> bool, step: (string, A) -> A, acc: A)
    requires j <= |m| && (t == [] || !keep(t[0]))
    ensures FoldRun(m + t, j, keep, step, acc) == FoldRun(m, j, keep, step, acc)
    decreases |m| - j
  {
    if j < |m| {
      assert (m + t)[j] == m[j];
      FoldStop(m, t, j + 1, keep, step, step(m[j], acc));
    } else if t != [] {
      assert (m + t)[j] == t[0];
    }
  }

  /** Lines in front none of which is found change nothing about the fold
      after the first found line. */
  lemma FirstFoldAppend<A>(a: seq<string>, b: seq<string>, found: string -> bool, off: nat, keep: string -> bool, step: (string, A) -> A, acc: A)
    requires NonePass(a, found)
    ensures FirstFold(a + b, found, off, keep, step, acc) == FirstFold(b, found, off, keep, step, acc)
  {
    FirstAppend(a, b, found);
    var f := FirstFrom(b, found, 0);
    if f.Some? {
      var h := f.value;
      FoldShift(a, b, h + off, keep, step, acc);
      assert |a| + h + off == |a| + (h + off);
    }
  }

  /** Trimming removes one dropped line from each end of lines that
      begin and end with kept ones, and nothing else. */
  lemma TrimEnds(nl: seq<string>, drop: string -> bool, pad: string)
    requires drop(pad) && |nl| >= 1 && !drop(nl[0]) && !drop(nl[|nl| - 1])
    ensures DropTrailing(DropLeading([pad] + nl + [pad], drop), drop) == nl
  {
    var c := [pad] + nl + [pad];
    var m := nl + [pad];
    assert c[1..] == m;
    assert m[0] == nl[0];
    assert DropLeading(c, drop) == m;
    assert m[..|nl|] == nl;
  }

  // ---------------------------------------------------------------------
  // The scans of the reader, over particular lines
  // ---------------------------------------------------------------------

  /** No line of the block is the given header. */
  predicate NoHeader(block: seq<string>, header: string) {
    forall k :: 0 <= k < |block| ==> !IsHeaderLine(block[k], header)
  }

  /** Lines without the header in front of the text move the found index
      and change nothing else. */
  lemma FindAppend(a: seq<string>, b: seq<string>, header: string)
    requires NoHeader(a, header)
    ensures FindHeader(a + b, header) == Offset(|a|, FindHeader(b, header))
  {
    var test := HeaderTest(header);
    assert NonePass(a, test) by {
      forall k | 0 <= k < |a| ensures !test(a[k]) {
        assert !IsHeaderLine(a[k], header);
      }
    }
    FirstAppend(a, b, test);
  }

  /** The Used On rows read after line u: the run that starts two lines
      after the first pipe line following u. */
  lemma UsedAtSome(lines: seq<string>, u: nat, k: nat)
    requires SkipNonPipe(lines, u + 1) + 2 == k
    ensures UsedAt(lines, Some(u)) == UsedRowsFrom(lines, k)
  {
  }

  /** The table rows read after line t: the run that starts one line after
      the first pipe line following t. */
  lemma TableAtSome(lines: seq<string>, t: nat, k: nat)
    requires SkipNonPipe(lines, t + 1) + 1 == k
    ensures TableAt(lines, Some(t)) == TableRowsFrom(lines, k)
  {
  }

  /** Over pipe lines that each hold a Used On row, the Used On run holds
      the row of every line. */
  lemma UsedRowsRun(m: seq<string>, j: nat)
    requires j <= |m|
    requires forall k :: j <= k < |m| ==> StartsPipe(m[k]) && |UsedRowOf(m[k])| == 1
    ensures |UsedRowsFrom(m, j)| == |m| - j
    ensures forall k :: 0 <= k < |m| - j ==> UsedRowsFrom(m, j)[k] == UsedRowOf(m[j + k])[0]
  {
    RunEach(m, j, StartsPipe, UsedRowOf);
  }

  /** Over lines that all begin with a pipe, the table run holds the cells
      of every line. */
  lemma TableRowsRun(m: seq<string>, j: nat)
    requires j <= |m|
    requires forall k :: j <= k < |m| ==> StartsPipe(m[k])
    ensures |TableRowsFrom(m, j)| == |m| - j
    ensures forall k :: 0 <= k < |m| - j ==> TableRowsFrom(m, j)[k] == Cells(m[j + k])
  {
    RunEach(m, j, StartsPipe, CellsRow);
  }

  /** Over lines none of which is a "## " header, the chunk is all of them. */
  lemma ChunkRun(m: seq<string>, j: nat)
    requires j <= |m|
    requires forall k :: j <= k < |m| ==> NotSectionLine(m[k])
    ensures ChunkFrom(m, j) == m[j..]
  {
    RunEach(m, j, NotSectionLine, LineOf);
  }

  /** The metadata rows never add or remove a key. */
  lemma FieldRowsKeys(lines: seq<string>, i: nat, fields: map<string, string>)
    ensures FieldRowsFrom(lines, i, fields).Keys == fields.Keys
  {
    var sameKeys := (m: map<string, string>) => m.Keys == fields.Keys;
    FoldKeeps(lines, i, StartsPipe, ApplyFieldRow, fields, sameKeys);
  }

  lemma FieldScanKeys(lines: seq<string>, fields: map<string, string>)
    ensures FirstFold(lines, IsFieldHeader, 2, StartsPipe, ApplyFieldRow, fields).Keys == fields.Keys
  {
    var sameKeys := (m: map<string, string>) => m.Keys == fields.Keys;
    FirstFoldKeeps(lines, IsFieldHeader, 2, StartsPipe, ApplyFieldRow, fields, sameKeys);
  }

  /** A property every step keeps holds of the folded value. */
  lemma {:induction false} FoldKeeps<A>(lines: seq<string>, j: nat, keep: string -> bool, step: (string, A) -> A, acc: A, inv: A -> bool)
    requires inv(acc)
    requires forall line, a :: inv(a) ==> inv(step(line, a))
    ensures inv(FoldRun(lines, j, keep, step, acc))
    decreases |lines| - j
  {
    if j < |lines| && keep(lines[j]) {
      FoldKeeps(lines, j + 1, keep, step, step(lines[j], acc), inv);
    }
  }

  lemma FirstFoldKeeps<A>(lines: seq<string>, found: string -> bool, off: nat, keep: string -> bool, step: (string, A) -> A, acc: A, inv: A -> bool)
    requires inv(acc)
    requires forall line, a :: inv(a) ==> inv(step(line, a))
    ensures inv(FirstFold(lines, found, off, keep, step, acc))
  {
    match FirstFrom(lines, found, 0)
    case None =>
    case Some(h) =>
      FoldKeeps(lines, h + off, keep, step, acc, inv);
  }

  // ---------------------------------------------------------------------
  // Tolerance of the reader
  // ---------------------------------------------------------------------

  /** Lines in front that are not the Used On header change nothing about
      the Used On rows read. */
  lemma UsedOfAppend(a: seq<string>, b: seq<string>)
    requires NoHeader(a, SectionHeader("Used On"))
    ensures UsedOf(a + b) == UsedOf(b)
  {
    var h := SectionHeader("Used On");
    FindAppend(a, b, h);
    SkipRunShift(a, b, FindHeader(b, h), 2, StartsPipe, UsedRowOf);
  }

  /** Lines in front that are not the Netlist header change nothing about
      the netlist read. */
  lemma NetlistOfAppend(a: seq<string>, b: seq<string>)
    requires NoHeader(a, SectionHeader("Netlist"))
    ensures NetlistOf(a + b) == NetlistOf(b)
  {
    var h := SectionHeader("Netlist");
    FindAppend(a, b, h);
    NetlistAtShift(a, b, FindHeader(b, h));
  }

  /** The netlist read after a line of b is read the same after that line
      of a + b. */
  lemma NetlistAtShift(a: seq<string>, b: seq<string>, at: Option<nat>)
    ensures NetlistAt(a + b, Offset(|a|, at)) == NetlistAt(b, at)
  {
    match at
    case None =>
    case Some(k) =>
      RunShift(a, b, k + 1, NotSectionLine, LineOf);
      assert |a| + k + 1 == |a| + (k + 1);
  }


  /** Lines in front that are not the section's header change nothing
      about the section's table read. */
  lemma TableOfAppend(a: seq<string>, b: seq<string>, title: string)
    requires NoHeader(a, SectionHeader(title))
    ensures TableOf(a + b, title) == TableOf(b, title)
  {
    var h := SectionHeader(title);
    FindAppend(a, b, h);
    SkipRunShift(a, b, FindHeader(b, h), 1, StartsPipe, CellsRow);
  }

  /** Lines in front with no metadata header row change nothing about the
      metadata read. */
  lemma FieldScanAppend(a: seq<string>, b: seq<string>, fields: map<string, string>)
    requires NonePass(a, IsFieldHeader)
    ensures FieldScan(a + b, fields) == FieldScan(b, fields)
  {
    FirstFoldAppend(a, b, IsFieldHeader, 2, StartsPipe, ApplyFieldRow, fields);
  }

  /** Lines in front with no title row change nothing about the title
      read. */
  lemma TitleAppend(a: seq<string>, b: seq<string>)
    requires NonePass(a, IsTitleRow)
    ensures TitleOf(a + b) == TitleOf(b)
  {
    FirstAppend(a, b, IsTitleRow);
    var f := FirstFrom(b, IsTitleRow, 0);
    if f.Some? {
      assert (a + b)[|a| + f.value] == b[f.value];
    }
  }

  /** A section that is not there is read as nothing, never as an error. */
  lemma MissingSection(lines: seq<string>, title: string)
    requires NoHeader(lines, SectionHeader(title))
    ensures TableOf(lines, title) == []
    ensures title == "Used On" ==> UsedOf(lines) == []
    ensures title == "Netlist" ==> NetlistOf(lines) == ""
  {
    var test := HeaderTest(SectionHeader(title));
    assert NonePass(lines, test) by {
      forall k | 0 <= k < |lines| ensures !test(lines[k]) {
        assert !IsHeaderLine(lines[k], SectionHeader(title));
      }
    }
    FirstFromSpec(lines, test, 0);
  }

  /** Only the first metadata table is read: the record is what the rows
      after the first header row make of it, whatever comes later. */
  lemma FirstFieldTable(lines: seq<string>, h: nat, fields: map<string, string>)
    requires h < |lines| && IsFieldHeader(lines[h])
    requires forall k :: 0 <= k < h ==> !IsFieldHeader(lines[k])
    ensures FieldScan(lines, fields) == FieldRowsFrom(lines, h + 2, fields)
  {
    FirstFromAt(lines, IsFieldHeader, 0, h);
  }

  // ---------------------------------------------------------------------
  // What the reader tolerates
  // ---------------------------------------------------------------------

  /** Skipping lines that fail the test past one more failing line does
      not change where the skip stops. */
  lemma {:induction false} SkipUntilPast(lines: seq<string>, test: string -> bool, i: nat, k: nat)
    requires i <= k < |lines|
    requires forall j :: i <= j <= k ==> !test(lines[j])
    ensures SkipUntil(lines, test, i) == SkipUntil(lines, test, k + 1)
    decreases k - i
  {
    if i < k {
      SkipUntilPast(lines, test, i + 1, k);
    }
  }

  /** The search for a section's table header does not stop at the next
      heading: when no pipe line follows line u up to and including line
      k, the Used On pairs and the table rows read for a heading at u are
      those read for a heading at k. */
  lemma SearchCrossesSections(lines: seq<string>, u: nat, k: nat)
    requires u < k < |lines|
    requires forall j :: u < j <= k ==> !StartsPipe(lines[j])
    ensures UsedAt(lines, Some(u)) == UsedAt(lines, Some(k))
    ensures TableAt(lines, Some(u)) == TableAt(lines, Some(k))
  {
    SkipRunPast(lines, u, k, 2, StartsPipe, UsedRowOf);
    SkipRunPast(lines, u, k, 1, StartsPipe, CellsRow);
  }

  /** A run read after a found line is the same when the line found is a
      later one and no line in between passes the test. */
  lemma SkipRunPast<R>(lines: seq<string>, u: nat, k: nat, off: nat, keep: string -> bool, item: string -> seq<R>)
    requires u < k < |lines|
    requires forall j :: u < j <= k ==> !keep(lines[j])
    ensures SkipRun(lines, Some(u), off, keep, item) == SkipRun(lines, Some(k), off, keep, item)
  {
    SkipUntilPast(lines, keep, u + 1, k);
  }

  /** A section without a table of its own reads the rows of the next
      section's table. */
  lemma EmptySectionReadsNext(lines: seq<string>, title: string, next: string, u: nat, k: nat)
    requires FindHeader(lines, SectionHeader(title)) == Some(u)
    requires FindHeader(lines, SectionHeader(next)) == Some(k)
    requires u < k && forall j :: u < j <= k ==> !StartsPipe(lines[j])
    ensures TableOf(lines, title) == TableOf(lines, next)
  {
    SearchCrossesSections(lines, u, k);
  }

  /** A run that keeps one more line ends with that line applied last. */
  lemma {:induction false} FoldSnoc<A>(m: seq<string>, y: string, j: nat, keep: string -> bool, step: (string, A) -> A, acc: A)
    requires j <= |m| && keep(y)
    requires forall k :: j <= k < |m| ==> keep(m[k])
    ensures FoldRun(m + [y], j, keep, step, acc) == step(y, FoldRun(m, j, keep, step, acc))
    decreases |m| - j
  {
    if j < |m| {
      assert (m + [y])[j] == m[j];
      FoldSnoc(m, y, j + 1, keep, step, step(m[j], acc));
    } else {
      assert (m + [y])[j] == y;
    }
  }

  /** Of two metadata rows naming the same field, the later one wins: the
      last row of a run sets its field to its value, whatever the rows
      before it set. */
  lemma LastRowWins(rows: seq<string>, y: string, fields: map<string, string>, key: string, value: string)
    requires forall k :: 0 <= k < |rows| ==> StartsPipe(rows[k])
    requires StartsPipe(y) && MdRow(Strip(y)) == Some((key, value)) && key in fields
    ensures FieldRowsFrom(rows + [y], 0, fields) == FieldRowsFrom(rows, 0, fields)[key := value]
    ensures FieldRowsFrom(rows + [y], 0, fields)[key] == value
  {
    FoldSnoc(rows, y, 0, StartsPipe, ApplyFieldRow, fields);
    FieldRowsKeys(rows, 0, fields);
  }
}
