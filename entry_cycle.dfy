/**
 * Opening an entry in the form and saving it again.
 *
 * Loading puts the record the reader produced into the form: every field,
 * the Used On pairs, the netlist, and each table row padded with empty
 * cells or cut to the table's width. Saving harvests the form, every cell
 * stripped, and writes the text. Since the reader takes a table's divider
 * for a first row, each load and save puts one more row of dashes at the
 * top of each of the three fixed-header tables; everything else comes
 * back as it was.
 */
module EntryCycle {
  import opened Text
  import opened EntryFormat
  import opened EntryParse
  import opened EntryRoundTrip

  /** What the entry form holds: one text per metadata field, the Used On
      pairs, the netlist text and the rows of the three tables. */
  datatype Form = Form(
    fields: map<string, string>,
    used: seq<UsedRow>,
    netlist: string,
    part: seq<seq<string>>,
    pin: seq<seq<string>>,
    tests: seq<seq<string>>)

  // ---------------------------------------------------------------------
  // Load and harvest
  // ---------------------------------------------------------------------

  /** The rows put into a table of n columns: each padded with empty
      cells, and only its first n cells shown. */
  function LoadRows(rows: seq<seq<string>>, n: nat): (r: seq<seq<string>>)
    ensures |r| == |rows|
    ensures forall k :: 0 <= k < |rows| ==> r[k] == Fit(rows[k], n)
  {
    seq(|rows|, k requires 0 <= k < |rows| => Fit(rows[k], n))
  }

  /** A table of n columns filled row by row. */
  method LoadTable(rows: seq<seq<string>>, n: nat) returns (table: seq<seq<string>>)
    ensures |table| == |rows|
    ensures forall k :: 0 <= k < |rows| ==> |table[k]| == n
    ensures forall k, c :: 0 <= k < |rows| && 0 <= c < n ==>
              table[k][c] == if c < |rows[k]| then rows[k][c] else ""
  {
    table := [];
    for k := 0 to |rows|
      invariant table == LoadRows(rows[..k], n)
    {
      table := table + [Fit(rows[k], n)];
    }
    assert rows[..|rows|] == rows;
  }

  /** The record read from a file, put into the form. */
  function LoadForm(e: Entry): (f: Form)
    ensures f.fields.Keys == FieldKeys
  {
    Form(
      map k | k in FieldKeys :: Get(e.fields, k),
      e.used,
      e.netlist,
      LoadRows(e.part, |PartlistHeaders|),
      LoadRows(e.pin, |PinHeaders|),
      LoadRows(e.tests, |TestHeaders|))
  }

  /** The cells of the first n columns of a table, each stripped, "" for
      a cell the row does not have. */
  method HarvestTable(table: seq<seq<string>>, n: nat) returns (rows: seq<seq<string>>)
    ensures |rows| == |table|
    ensures forall k :: 0 <= k < |table| ==> |rows[k]| == n
    ensures forall k, c :: 0 <= k < |table| && 0 <= c < n ==>
              rows[k][c] == if c < |table[k]| then Strip(table[k][c]) else ""
  {
    rows := [];
    for k := 0 to |table|
      invariant rows == FittedRows(table[..k], n)
    {
      var row: seq<string> := [];
      for c := 0 to n
        invariant |row| == c
        invariant forall i :: 0 <= i < c ==> row[i] == StripAll(Fit(table[k], n))[i]
      {
        var cell := if c < |table[k]| then Strip(table[k][c]) else "";
        row := row + [cell];
      }
      assert row == StripAll(Fit(table[k], n));
      rows := rows + [row];
    }
    assert table[..|table|] == table;
  }

  /** Every Used On pair with both cells stripped. */
  function StripPairs(used: seq<UsedRow>): (r: seq<UsedRow>)
    ensures |r| == |used|
    ensures forall i :: 0 <= i < |used| ==> r[i] == UsedRow(Strip(used[i].pn), Strip(used[i].occ))
  {
    seq(|used|, i requires 0 <= i < |used| => UsedRow(Strip(used[i].pn), Strip(used[i].occ)))
  }

  /** The record saved from the form: every field and cell stripped, the
      netlist as it stands, each table read to its width. */
  function HarvestForm(f: Form): (e: Entry)
    ensures e.fields.Keys == FieldKeys
    ensures forall k :: k in e.fields ==> Stripped(e.fields[k])
    ensures UsedStripped(e.used)
  {
    PairsStripped(f.used);
    Entry(
      map k | k in FieldKeys :: Strip(Get(f.fields, k)),
      StripPairs(f.used),
      f.netlist,
      FittedRows(f.part, |PartlistHeaders|),
      FittedRows(f.pin, |PinHeaders|),
      FittedRows(f.tests, |TestHeaders|))
  }

  /** One load of a file's lines into the form and one save of the form:
      whatever the file held, the save writes a whole entry, dated the day
      of the save. */
  function Cycle(lines: seq<string>, date: string): (r: seq<string>)
    ensures |r| >= 37 && r[2] == "**Last Updated:** " + date && r[15] == "## Used On"
  {
    Render(HarvestForm(LoadForm(Parse(lines))), date)
  }

  /** k applications of a step in a row. */
  function Iterate<T>(step: T -> T, x: T, k: nat): T
    decreases k
  {
    if k == 0 then x else Iterate(step, step(x), k - 1)
  }

  /** k loads and saves in a row. */
  function Cycles(lines: seq<string>, date: string, k: nat): seq<string> {
    Iterate(CycleOn(date), lines, k)
  }

  /** One load and save on a given day, as a step. */
  function CycleOn(date: string): seq<string> -> seq<string> {
    lines => Cycle(lines, date)
  }

  // ---------------------------------------------------------------------
  // What one cycle does to a record
  // ---------------------------------------------------------------------

  /** The record saved after loading the text of e: every field stripped,
      the Used On pairs as read and stripped, the netlist as written, and
      each fixed-header table with a row of dashes on top of its rows,
      each fitted to the header's width. */
  function Next(e: Entry): (r: Entry)
    ensures r.fields.Keys == FieldKeys
    ensures forall k :: k in FieldKeys ==> r.fields[k] == Strip(Get(e.fields, k))
    ensures UsedStripped(r.used) && |r.used| == if e.used == [] then 1 else |e.used|
    ensures r.used == StripPairs(ExpectedUsed(e.used))
    ensures r.netlist == NetlistBody(e.netlist)
    ensures r.part == [Dashes(PartlistHeaders)] + FittedRows(e.part, |PartlistHeaders|)
    ensures r.pin == [Dashes(PinHeaders)] + FittedRows(e.pin, |PinHeaders|)
    ensures r.tests == [Dashes(TestHeaders)] + FittedRows(e.tests, |TestHeaders|)
  {
    FieldsStripTwice(e.fields);
    PairsStripped(ExpectedUsed(e.used));
    TableStable(PartlistHeaders, e.part);
    TableStable(PinHeaders, e.pin);
    TableStable(TestHeaders, e.tests);
    HarvestForm(LoadForm(Expected(e)))
  }

  /** A stripped field value strips to itself. */
  lemma FieldsStripTwice(fields: map<string, string>)
    ensures forall k :: Strip(Strip(Get(fields, k))) == Strip(Get(fields, k))
  {
    forall k ensures Strip(Strip(Get(fields, k))) == Strip(Get(fields, k)) {
      StripIdempotent(Get(fields, k));
    }
  }

  /** Stripping both cells of every pair gives stripped pairs. */
  lemma PairsStripped(used: seq<UsedRow>)
    ensures UsedStripped(StripPairs(used))
  {
    var s := StripPairs(used);
    forall r | r in s ensures Stripped(r.pn) && Stripped(r.occ) {
      var i :| 0 <= i < |s| && s[i] == r;
    }
  }

  /** A record with one more row of dashes on top of each fixed-header
      table. */
  function AddDashRows(e: Entry): (r: Entry)
    ensures r.fields == e.fields && r.used == e.used && r.netlist == e.netlist
    ensures r.part == [Dashes(PartlistHeaders)] + e.part
    ensures r.pin == [Dashes(PinHeaders)] + e.pin
    ensures r.tests == [Dashes(TestHeaders)] + e.tests
  {
    e.(part := [Dashes(PartlistHeaders)] + e.part,
       pin := [Dashes(PinHeaders)] + e.pin,
       tests := [Dashes(TestHeaders)] + e.tests)
  }

  /** Rows of n stripped cells. */
  predicate Normal(rows: seq<seq<string>>, n: nat) {
    forall k :: 0 <= k < |rows| ==> |rows[k]| == n && forall c :: 0 <= c < n ==> Stripped(rows[k][c])
  }

  lemma FittedNormal(rows: seq<seq<string>>, n: nat)
    ensures Normal(FittedRows(rows, n), n)
  {
    var f := FittedRows(rows, n);
    forall k, c | 0 <= k < |rows| && 0 <= c < n ensures Stripped(f[k][c]) {
      assert f[k][c] == Strip(Fit(rows[k], n)[c]);
    }
  }

  /** A run of dashes is its own strip. */
  lemma DashesStripped(headers: seq<string>)
    ensures Normal([Dashes(headers)], |headers|)
  {
    var d := Dashes(headers);
    forall c | 0 <= c < |headers| ensures Stripped(d[c]) {
      var r := Repeat('-', |headers[c]|);
      if |r| > 0 {
        assert r[0] == '-' && r[|r| - 1] == '-';
      }
    }
  }

  /** Loading normal rows and harvesting them gives them back. */
  lemma NormalStable(rows: seq<seq<string>>, n: nat)
    requires Normal(rows, n)
    ensures FittedRows(LoadRows(rows, n), n) == rows
    ensures FittedRows(rows, n) == rows
  {
    forall k | 0 <= k < |rows| ensures StripAll(Fit(rows[k], n)) == rows[k] {
      forall c | 0 <= c < n ensures Strip(rows[k][c]) == rows[k][c] {
        StrippedFixed(rows[k][c]);
      }
    }
    forall k | 0 <= k < |rows| ensures StripAll(Fit(Fit(rows[k], n), n)) == rows[k] {
      assert Fit(Fit(rows[k], n), n) == Fit(rows[k], n);
    }
  }

  /** A table as read, loaded and harvested, is the same table. */
  lemma TableStable(headers: seq<string>, rows: seq<seq<string>>)
    ensures FittedRows(LoadRows(ExpectedTable(headers, rows), |headers|), |headers|) == ExpectedTable(headers, rows)
    ensures FittedRows(ExpectedTable(headers, rows), |headers|) == ExpectedTable(headers, rows)
  {
    var n := |headers|;
    DashesStripped(headers);
    FittedNormal(rows, n);
    var t := ExpectedTable(headers, rows);
    assert Normal(t, n) by {
      forall k | 0 <= k < |t| ensures |t[k]| == n && forall c :: 0 <= c < n ==> Stripped(t[k][c]) {
        if k > 0 {
          assert t[k] == FittedRows(rows, n)[k - 1];
        }
      }
    }
    NormalStable(t, n);
  }

  /** The Used On pairs as read are stripped and have no empty cell, so
      reading them again changes nothing. */
  lemma UsedStable(used: seq<UsedRow>)
    requires forall r :: r in used ==> Stripped(r.pn) && Stripped(r.occ)
    ensures StripPairs(ExpectedUsed(used)) == ExpectedUsed(used)
    ensures ExpectedUsed(ExpectedUsed(used)) == ExpectedUsed(used)
  {
    var x := ExpectedUsed(used);
    NoneStripped();
    forall i | 0 <= i < |x| ensures Stripped(x[i].pn) && Stripped(x[i].occ) && x[i].pn != "" && x[i].occ != "" {
      if |used| > 0 {
        var r := used[i];
        assert r in used;
        StrippedFixed(r.pn);
        StrippedFixed(r.occ);
        StrippedFixed("(None)");
        StrippedFixed("0");
      }
    }
    forall i | 0 <= i < |x| ensures Strip(x[i].pn) == x[i].pn && Strip(x[i].occ) == x[i].occ {
      StrippedFixed(x[i].pn);
      StrippedFixed(x[i].occ);
    }
  }

  lemma NoneStripped()
    ensures Stripped("(None)") && Stripped("0")
  {
  }

  /** The netlist as read reads again the same. */
  lemma NetlistStable(netlist: string)
    ensures NetlistBody(NetlistBody(netlist)) == NetlistBody(netlist)
  {
    if Strip(netlist) != "" {
      StripIdempotent(netlist);
    } else {
      var p := NetlistPlaceholder;
      PlaceholderChars(p);
      BracketedLine(p);
      StrippedFixed(p);
    }
  }

  /** One load and save: the text of e becomes the text of Next(e). */
  lemma CycleRender(e: Entry, date: string)
    requires Wf(e)
    ensures Cycle(Render(e, date), date) == Render(Next(e), date)
  {
    RoundTrip(e, date);
  }

  /** What the saved record reads as: what the loaded one read as, with a
      row of dashes added on top of each fixed-header table, when the
      loaded record's Used On cells are stripped (as every saved record's
      are). */
  lemma ExpectedNext(e: Entry)
    requires forall r :: r in e.used ==> Stripped(r.pn) && Stripped(r.occ)
    ensures Expected(Next(e)) == AddDashRows(Expected(e))
  {
    var x := Expected(e);
    var n := Next(e);
    forall k | k in FieldKeys ensures Strip(Get(n.fields, k)) == x.fields[k] {
      StripIdempotent(Get(e.fields, k));
    }
    UsedStable(e.used);
    NetlistStable(e.netlist);
    TableStable(PartlistHeaders, e.part);
    TableStable(PinHeaders, e.pin);
    TableStable(TestHeaders, e.tests);
  }

  // ---------------------------------------------------------------------
  // A saved record stays readable
  // ---------------------------------------------------------------------

  /** Cells the form hands back stripped. */
  predicate UsedStripped(used: seq<UsedRow>) {
    forall r :: r in used ==> Stripped(r.pn) && Stripped(r.occ)
  }

  /** A cell with no pipe and no line break. */
  predicate CleanCell(s: string) {
    '|' !in s && OneLine(s)
  }

  lemma StripClean(s: string)
    requires CleanCell(s)
    ensures CleanCell(Strip(s))
  {
  }

  lemma LiteralCellsClean()
    ensures CleanCell("(None)") && CleanCell("0") && CleanCell("")
  {
  }

  /** Every character of the placeholder is printable ASCII. */
  lemma PlaceholderClean(p: string)
    requires p == NetlistPlaceholder
    ensures CleanCell(p)
  {
    assert forall i :: 0 <= i < |p| ==> ' ' <= p[i] <= '~' && p[i] != '|';
  }

  lemma UsedClean(used: seq<UsedRow>)
    requires forall r :: r in used ==> CleanCell(r.pn) && CleanCell(r.occ)
    ensures forall r :: r in ExpectedUsed(used) ==> CleanCell(r.pn) && CleanCell(r.occ)
  {
    LiteralCellsClean();
    var x := ExpectedUsed(used);
    forall i | 0 <= i < |x| ensures CleanCell(x[i].pn) && CleanCell(x[i].occ) {
      if |used| > 0 {
        assert used[i] in used;
        StripClean(OrElse(used[i].pn, "(None)"));
        StripClean(OrElse(used[i].occ, "0"));
      }
    }
  }

  lemma TableClean(headers: seq<string>, rows: seq<seq<string>>)
    requires forall r, c :: r in rows && c in r ==> CleanCell(c)
    ensures forall r, c :: r in ExpectedTable(headers, rows) && c in r ==> CleanCell(c)
  {
    var t := ExpectedTable(headers, rows);
    forall k, i | 0 <= k < |t| && 0 <= i < |t[k]| ensures CleanCell(t[k][i]) {
      if k == 0 {
        DashCellClean(headers, i);
      } else {
        assert rows[k - 1] in rows;
        FittedCellClean(rows[k - 1], |headers|, i);
      }
    }
  }

  lemma DashCellClean(headers: seq<string>, i: nat)
    requires i < |headers|
    ensures CleanCell(Dashes(headers)[i])
  {
    assert forall ch :: ch in Dashes(headers)[i] ==> ch == '-';
  }

  lemma FittedCellClean(row: seq<string>, n: nat, i: nat)
    requires i < n && forall c :: c in row ==> CleanCell(c)
    ensures CleanCell(Strip(Fit(row, n)[i]))
  {
    if i < |row| {
      assert row[i] in row;
    }
    StripClean(Fit(row, n)[i]);
  }

  lemma NetlistStaysOk(netlist: string)
    requires NetlistOk(netlist)
    ensures NetlistOk(NetlistBody(netlist))
  {
    if Strip(netlist) != "" {
      StripIdempotent(netlist);
    } else {
      var p := NetlistPlaceholder;
      PlaceholderChars(p);
      BracketedLine(p);
      StrippedFixed(p);
      PlaceholderClean(p);
    }
  }

  /** What one load and save write is again a record the writer and the
      reader agree on. */
  lemma WfNext(e: Entry)
    requires Wf(e)
    ensures Wf(Next(e)) && UsedStripped(Next(e).used)
  {
    var n := Next(e);
    forall k | k in n.fields ensures CleanCell(n.fields[k]) {
      var v := Get(e.fields, k);
      if k in e.fields {
        assert CleanCell(v);
      }
      StripClean(v);
      StripClean(Strip(v));
    }
    forall r | r in e.used ensures CleanCell(r.pn) && CleanCell(r.occ) {
    }
    UsedClean(e.used);
    var u := ExpectedUsed(e.used);
    forall i | 0 <= i < |n.used| ensures CleanCell(n.used[i].pn) && CleanCell(n.used[i].occ) {
      assert u[i] in u;
      StripClean(u[i].pn);
      StripClean(u[i].occ);
    }
    NetlistStaysOk(e.netlist);
    TablesClean(e);
    TableStable(PartlistHeaders, e.part);
    TableStable(PinHeaders, e.pin);
    TableStable(TestHeaders, e.tests);
  }

  lemma TablesClean(e: Entry)
    requires Wf(e)
    ensures forall r, c :: r in ExpectedTable(PartlistHeaders, e.part) && c in r ==> CleanCell(c)
    ensures forall r, c :: r in ExpectedTable(PinHeaders, e.pin) && c in r ==> CleanCell(c)
    ensures forall r, c :: r in ExpectedTable(TestHeaders, e.tests) && c in r ==> CleanCell(c)
  {
    forall r, c | r in e.part && c in r ensures CleanCell(c) {
      assert r in e.part + e.pin + e.tests;
    }
    forall r, c | r in e.pin && c in r ensures CleanCell(c) {
      assert r in e.part + e.pin + e.tests;
    }
    forall r, c | r in e.tests && c in r ensures CleanCell(c) {
      assert r in e.part + e.pin + e.tests;
    }
    TableClean(PartlistHeaders, e.part);
    TableClean(PinHeaders, e.pin);
    TableClean(TestHeaders, e.tests);
  }

  // ---------------------------------------------------------------------
  // Repeated cycles
  // ---------------------------------------------------------------------

  /** The record after k loads and saves. */
  function NextN(e: Entry, k: nat): Entry {
    Iterate(Next, e, k)
  }

  /** k more rows of dashes on top of each fixed-header table. */
  function AddDashRowsN(e: Entry, k: nat): Entry {
    Iterate(AddDashRows, e, k)
  }

  /** k rows of dashes for the given headers. */
  function DashStack(headers: seq<string>, k: nat): (r: seq<seq<string>>)
    ensures |r| == k
    ensures forall i :: 0 <= i < k ==> r[i] == Dashes(headers)
  {
    seq(k, _ => Dashes(headers))
  }

  /** Iterating a step that keeps a property and that another step
      mirrors under a view: the property holds after k steps, and the
      view of the k-th state is the k-th mirrored step of the view. */
  lemma {:induction false} IterateMirror<S, T>(x: S, k: nat, good: S -> bool, next: S -> S, view: S -> T, step: T -> T)
    requires good(x)
    requires forall y {:trigger next(y)} :: good(y) ==> good(next(y)) && step(view(y)) == view(next(y))
    ensures good(Iterate(next, x, k))
    ensures Iterate(step, view(x), k) == view(Iterate(next, x, k))
    decreases k
  {
    if k > 0 {
      IterateMirror(next(x), k - 1, good, next, view, step);
    }
  }

  /** A record as the save writes it: one the writer and the reader agree
      on, with its Used On cells stripped. */
  predicate Saved(e: Entry) {
    Wf(e) && UsedStripped(e.used)
  }

  /** The text of a record written on a given day. */
  function RenderOn(date: string): Entry -> seq<string> {
    e => Render(e, date)
  }

  /** Every record of the chain is one the writer and the reader agree
      on, and reads as the first did with k more rows of dashes on each
      fixed-header table. */
  lemma Chain(e: Entry, k: nat)
    requires Wf(e) && UsedStripped(e.used)
    ensures Wf(NextN(e, k)) && UsedStripped(NextN(e, k).used)
    ensures Expected(NextN(e, k)) == AddDashRowsN(Expected(e), k)
  {
    forall y | Saved(y) ensures Saved(Next(y)) && AddDashRows(Expected(y)) == Expected(Next(y)) {
      WfNext(y);
      ExpectedNext(y);
    }
    IterateMirror(e, k, Saved, Next, Expected, AddDashRows);
  }

  /** One load and save of a good record's text gives the text of the
      next record, which is good too. */
  lemma CycleStep(e: Entry, date: string)
    requires Wf(e) && UsedStripped(e.used)
    ensures Wf(Next(e)) && UsedStripped(Next(e).used)
    ensures Cycle(Render(e, date), date) == Render(Next(e), date)
  {
    WfNext(e);
    CycleRender(e, date);
  }

  /** The step facts for every saved record at once. */
  lemma CycleSteps(date: string)
    ensures forall y {:trigger Next(y)} :: Saved(y) ==> Saved(Next(y)) && CycleOn(date)(RenderOn(date)(y)) == RenderOn(date)(Next(y))
  {
    forall y | Saved(y) ensures Saved(Next(y)) && CycleOn(date)(RenderOn(date)(y)) == RenderOn(date)(Next(y)) {
      CycleStep(y, date);
    }
  }

  /** After k loads and saves of a saved record, the text is the text of
      the k-th record of the chain. */
  lemma CyclesRender(e: Entry, date: string, k: nat)
    requires Wf(e) && UsedStripped(e.used)
    ensures Cycles(Render(e, date), date, k) == Render(NextN(e, k), date)
  {
    CyclesMirror(e, date, k);
    assert RenderOn(date)(e) == Render(e, date);
    assert RenderOn(date)(NextN(e, k)) == Render(NextN(e, k), date);
  }

  /** CyclesRender with the steps and the texts as function values. */
  lemma CyclesMirror(e: Entry, date: string, k: nat)
    requires Saved(e)
    ensures Iterate(CycleOn(date), RenderOn(date)(e), k) == RenderOn(date)(NextN(e, k))
  {
    CycleSteps(date);
    IterateMirror(e, k, Saved, Next, RenderOn(date), CycleOn(date));
  }

  /** One more row of dashes in front of a table under k of them. */
  lemma DashStackSnoc(headers: seq<string>, k: nat, rows: seq<seq<string>>)
    ensures DashStack(headers, k) + ([Dashes(headers)] + rows) == DashStack(headers, k + 1) + rows
  {
    assert DashStack(headers, k) + [Dashes(headers)] == DashStack(headers, k + 1);
  }

  /** The tables of a record with k more dash rows. */
  lemma {:induction false} AddDashRowsShape(x: Entry, k: nat)
    ensures var r := AddDashRowsN(x, k);
      r.fields == x.fields && r.used == x.used && r.netlist == x.netlist
      && r.part == DashStack(PartlistHeaders, k) + x.part
      && r.pin == DashStack(PinHeaders, k) + x.pin
      && r.tests == DashStack(TestHeaders, k) + x.tests
    decreases k
  {
    if k > 0 {
      AddDashRowsShape(AddDashRows(x), k - 1);
      assert AddDashRowsN(x, k) == AddDashRowsN(AddDashRows(x), k - 1);
      DashStackSnoc(PartlistHeaders, k - 1, x.part);
      DashStackSnoc(PinHeaders, k - 1, x.pin);
      DashStackSnoc(TestHeaders, k - 1, x.tests);
    }
  }

  /** The save strips every Used On cell. */
  lemma HarvestSaved(f: Form)
    requires Wf(HarvestForm(f))
    ensures Saved(HarvestForm(f))
  {
    var e := HarvestForm(f);
    forall r | r in e.used ensures Stripped(r.pn) && Stripped(r.occ) {
      var i :| 0 <= i < |e.used| && e.used[i] == r;
    }
  }

  /** Reading a saved record back after k more loads and saves gives what
      reading it straight away gives, with k more rows of dashes. */
  lemma CyclesParse(e: Entry, date: string, k: nat)
    requires Saved(e)
    ensures Parse(Cycles(Render(e, date), date, k)) == AddDashRowsN(Expected(e), k)
  {
    CyclesRender(e, date, k);
    Chain(e, k);
    RoundTrip(NextN(e, k), date);
  }

  /** Growing dash rows: an entry saved from the form and then loaded and
      saved k more times reads with its metadata, Used On and netlist as
      after the first save, and with k + 1 rows of dashes on top of each
      fixed-header table, followed by the table's own rows. */
  lemma DashRowsGrow(f: Form, date: string, k: nat)
    requires Wf(HarvestForm(f))
    ensures var e := HarvestForm(f);
      var r := Parse(Cycles(Render(e, date), date, k));
      r.fields == Expected(e).fields && r.used == Expected(e).used && r.netlist == Expected(e).netlist
      && r.part == DashStack(PartlistHeaders, k + 1) + FittedRows(e.part, |PartlistHeaders|)
      && r.pin == DashStack(PinHeaders, k + 1) + FittedRows(e.pin, |PinHeaders|)
      && r.tests == DashStack(TestHeaders, k + 1) + FittedRows(e.tests, |TestHeaders|)
  {
    var e := HarvestForm(f);
    HarvestSaved(f);
    CyclesParse(e, date, k);
    AddDashRowsShape(Expected(e), k);
    DashStackSnoc(PartlistHeaders, k, FittedRows(e.part, |PartlistHeaders|));
    DashStackSnoc(PinHeaders, k, FittedRows(e.pin, |PinHeaders|));
    DashStackSnoc(TestHeaders, k, FittedRows(e.tests, |TestHeaders|));
  }
}
