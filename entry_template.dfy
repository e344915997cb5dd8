/**
 * The text of a freshly created entry, read back.
 *
 * The template is written out line by line rather than built by the
 * writer: its metadata values are padded to 25 characters and its tables
 * have no rows. It has the same shape as the writer's output, so the
 * reader treats it the same way: every field reads as its placeholder,
 * Used On as the single "(None)" pair, the netlist as its placeholder,
 * and each fixed-header table as the one row of dashes its divider makes.
 */
module EntryTemplate {
  import opened Text
  import opened EntryFormat
  import opened EntryParse
  import opened EntryRoundTrip

  /** The template's metadata rows: every field of FieldOrder with its
      placeholder, padded. */
  function TemplateRows(): (r: seq<string>)
    ensures |r| == |FieldOrder|
  {
    seq(|FieldOrder|, i requires 0 <= i < |FieldOrder| => FieldRowLine(FieldOrder[i].0, PadRight(FieldOrder[i].1, 25)))
  }

  /** The entry whose sections the template holds: no pairs, no netlist,
      no table rows. */
  function BlankEntry(): Entry {
    Entry(map[], [], "", [], [], [])
  }

  /** The template is a document with the placeholder rows and the blank
      entry's sections. */
  lemma TemplateIsDocument(date: string)
    ensures NewEntryTemplate(date) == Document(date, TemplateRows(), BlankEntry())
  {
    TemplateRowsLiteral();
    TemplateSectionBlock();
  }


  lemma TemplateSectionBlock()
    ensures TemplateSectionLines == Sections(BlankEntry())
  {
    BlankUsed();
    BlankNetlist();
    BlankTable("## Partlist", PartlistHeaders);
    BlankTable("## Pin Interface", PinHeaders);
    BlankTable("## Tests", TestHeaders);
  }

  // ---------------------------------------------------------------------
  // The placeholders
  // ---------------------------------------------------------------------

  /** The placeholder an order gives a key: the one paired with its first
      occurrence, "" when the order does not name it. */
  function PlaceholderOf(order: seq<(string, string)>, key: string): string
    decreases |order|
  {
    if |order| == 0 then ""
    else if order[0].0 == key then order[0].1
    else PlaceholderOf(order[1..], key)
  }

  /** Every metadata field with the placeholder the template gives it. */
  function Placeholders(): (m: map<string, string>)
    ensures m.Keys == FieldKeys
  {
    map k | k in FieldKeys :: PlaceholderOf(FieldOrder, k)
  }

  predicate DistinctKeys(order: seq<(string, string)>) {
    forall i, j :: 0 <= i < j < |order| ==> order[i].0 != order[j].0
  }

  /** With distinct keys, each key's placeholder is the one paired with
      it. */
  lemma {:induction false} PlaceholderAt(order: seq<(string, string)>, i: nat)
    requires i < |order| && DistinctKeys(order)
    ensures PlaceholderOf(order, order[i].0) == order[i].1
    decreases |order|
  {
    if i > 0 {
      assert order[0].0 != order[i].0;
      assert DistinctKeys(order[1..]) by {
        forall a, b | 0 <= a < b < |order[1..]| ensures order[1..][a].0 != order[1..][b].0 {
          assert order[1..][a] == order[a + 1] && order[1..][b] == order[b + 1];
        }
      }
      PlaceholderAt(order[1..], i - 1);
      assert order[1..][i - 1] == order[i];
    }
  }

  /** The field names are distinct, and every placeholder is trimmed and
      free of pipes. */
  lemma FieldOrderValues()
    ensures DistinctKeys(FieldOrder)
    ensures forall i :: 0 <= i < |FieldOrder| ==> Stripped(FieldOrder[i].1) && '|' !in FieldOrder[i].1
  {
    FieldKeysDistinct();
    PlaceholderText("Click or tap here to enter text.");
    PlaceholderText("PN-XXX");
    PlaceholderText("A1-00");
    PlaceholderText("I2C / SPI / UART / Analog / Digital");
    PlaceholderText("Specialized / Fundamental");
    PlaceholderText("Inventive / Common");
    PlaceholderText("Exists / Does Not Exist");
    PlaceholderText("Yes / No");
  }

  lemma FieldKeysDistinct()
    ensures DistinctKeys(FieldOrder)
  {
  }

  /** A placeholder is trimmed and holds no pipe. */
  lemma PlaceholderText(v: string)
    requires v in {"Click or tap here to enter text.", "PN-XXX", "A1-00", "I2C / SPI / UART / Analog / Digital", "Specialized / Fundamental", "Inventive / Common", "Exists / Does Not Exist", "Yes / No"}
    ensures Stripped(v) && '|' !in v
  {
    PlaceholderTrimmed(v);
    if v in {"Click or tap here to enter text.", "PN-XXX", "A1-00", "I2C / SPI / UART / Analog / Digital"} {
      PlaceholderNoPipe(v);
    } else {
      PlaceholderNoPipeRest(v);
    }
  }

  lemma PlaceholderTrimmed(v: string)
    requires v in {"Click or tap here to enter text.", "PN-XXX", "A1-00", "I2C / SPI / UART / Analog / Digital", "Specialized / Fundamental", "Inventive / Common", "Exists / Does Not Exist", "Yes / No"}
    ensures Stripped(v)
  {
    assert v[0] != ' ' && v[|v| - 1] != ' ';
  }

  lemma PlaceholderNoPipe(v: string)
    requires v in {"Click or tap here to enter text.", "PN-XXX", "A1-00", "I2C / SPI / UART / Analog / Digital"}
    ensures '|' !in v
  {
  }

  lemma PlaceholderNoPipeRest(v: string)
    requires v in {"Specialized / Fundamental", "Inventive / Common", "Exists / Does Not Exist", "Yes / No"}
    ensures '|' !in v
  {
  }

  /** Rows of padded placeholders say the placeholders, when each key's
      value in fields is its placeholder. */
  lemma PaddedRowsSay(rows: seq<string>, order: seq<(string, string)>, fields: map<string, string>)
    requires |rows| == |order| && KeysReadable(order)
    requires forall i :: 0 <= i < |order| ==>
               rows[i] == FieldRowLine(order[i].0, PadRight(order[i].1, 25))
               && Stripped(order[i].1) && '|' !in order[i].1 && Get(fields, order[i].0) == order[i].1
    ensures RowsSay(rows, order, fields)
  {
    forall i | 0 <= i < |rows|
      ensures StartsPipe(rows[i]) && MdRow(Strip(rows[i])) == Some((order[i].0, Strip(Get(fields, order[i].0))))
    {
      var v := order[i].1;
      PadRightChars(v, 25);
      FieldRowRead(order[i].0, PadRight(v, 25));
      StripPadRight(v, 25);
      StrippedFixed(v);
    }
  }

  /** The template's metadata rows read back as the placeholders. */
  lemma TemplateFields()
    ensures PipeLines(TemplateRows())
    ensures FieldRowsFrom(TemplateRows(), 0, DefaultFields()) == Placeholders()
  {
    var p := Placeholders();
    var rows := TemplateRows();
    TemplateRowsSay();
    RowsSayPipe(rows, FieldOrder, p);
    assert FieldRowsFrom(rows, 0, DefaultFields()) == Overlay(DefaultFields(), FieldKeys, p) by {
      FieldOrderReadable();
      FieldRowsRead(rows, FieldOrder, p, 0, DefaultFields());
    }
    PlaceholdersRead();
  }

  /** Reading the placeholders back over the empty record gives them
      unchanged, since each is its own strip. */
  lemma PlaceholdersRead()
    ensures Overlay(DefaultFields(), FieldKeys, Placeholders()) == Placeholders()
  {
    var p := Placeholders();
    var r := Overlay(DefaultFields(), FieldKeys, p);
    forall k | k in FieldKeys ensures r[k] == p[k] {
      PlaceholderStripped(k);
    }
    assert r.Keys == p.Keys;
  }

  lemma TemplateRowsSay()
    ensures RowsSay(TemplateRows(), FieldOrder, Placeholders())
  {
    var p := Placeholders();
    FieldOrderReadable();
    FieldOrderValues();
    forall i | 0 <= i < |FieldOrder| ensures Get(p, FieldOrder[i].0) == FieldOrder[i].1 {
      PlaceholderAt(FieldOrder, i);
    }
    PaddedRowsSay(TemplateRows(), FieldOrder, p);
  }

  lemma PlaceholderStripped(k: string)
    requires k in FieldKeys
    ensures Strip(Placeholders()[k]) == Placeholders()[k]
  {
    var i :| 0 <= i < |FieldOrder| && FieldOrder[i].0 == k;
    FieldOrderValues();
    PlaceholderAt(FieldOrder, i);
    StrippedFixed(FieldOrder[i].1);
  }

  /** A new entry reads as: every field its placeholder, Used On the single
      "(None)" pair, the netlist placeholder, and each fixed-header table
      the one row of dashes its divider makes. */
  lemma TemplateParse(date: string)
    ensures Parse(NewEntryTemplate(date)) == Entry(
              Placeholders(),
              [UsedRow("(None)", "0")],
              NetlistPlaceholder,
              [Dashes(PartlistHeaders)],
              [Dashes(PinHeaders)],
              [Dashes(TestHeaders)])
  {
    TemplateIsDocument(date);
    TemplateFields();
    BlankReadable();
    ParseDocument(date, TemplateRows(), BlankEntry());
    BlankSectionsRead();
  }

  /** The blank entry's sections read as the "(None)" pair, the netlist
      placeholder and a table of dashes alone. */
  lemma BlankSectionsRead()
    ensures ExpectedUsed(BlankEntry().used) == [UsedRow("(None)", "0")]
    ensures NetlistBody(BlankEntry().netlist) == NetlistPlaceholder
    ensures ExpectedTable(PartlistHeaders, BlankEntry().part) == [Dashes(PartlistHeaders)]
    ensures ExpectedTable(PinHeaders, BlankEntry().pin) == [Dashes(PinHeaders)]
    ensures ExpectedTable(TestHeaders, BlankEntry().tests) == [Dashes(TestHeaders)]
  {
    StrippedFixed("");
    NoRowsTable(PartlistHeaders);
    NoRowsTable(PinHeaders);
    NoRowsTable(TestHeaders);
  }

  lemma NoRowsTable(headers: seq<string>)
    ensures ExpectedTable(headers, []) == [Dashes(headers)]
  {
    assert FittedRows([], |headers|) == [];
  }

  lemma BlankReadable()
    ensures SectionsReadable(BlankEntry())
  {
    BlankLine();
    assert Split(Strip(""), '\n') == [""] by {
      SplitNoSeparator("", '\n');
    }
  }

  /** The title read from a new entry is the Title placeholder. */
  lemma TemplateTitle(date: string)
    ensures TitleOf(NewEntryTemplate(date)) == "Click or tap here to enter text."
  {
    TemplateIsDocument(date);
    TemplateTitleRow();
    DocTitle(date, TemplateRows(), BlankEntry());
  }

  /** The template's first metadata row is a Title row holding the Title
      placeholder. */
  lemma TemplateTitleRow()
    ensures IsTitleRow(TemplateRows()[0])
    ensures Cells(TemplateRows()[0])[1] == "Click or tap here to enter text."
  {
    var v := "Click or tap here to enter text.";
    var line := TemplateRows()[0];
    TemplateFirstRow();
    PlaceholderText(v);
    TitleRowRead(line, v);
  }

  lemma TemplateFirstRow()
    ensures TemplateRows()[0] == FieldRowLine("Title", "Click or tap here to enter text.")
  {
    TitlePadding();
  }


  lemma BlankUsed()
    ensures UsedSection([]) == ["## Used On", "", UsedHeader, UsedDivider, UsedNoneRow]
  {
  }

  lemma BlankNetlist()
    ensures NetlistSection("") == ["## Netlist", "", NetlistPlaceholder]
  {
    PlaceholderOneLine(NetlistPlaceholder);
  }

  lemma BlankTable(heading: string, headers: seq<string>)
    ensures TableSection(heading, headers, []) == [heading, "", RowLine(headers), DividerFor(headers)]
  {
  }

  lemma PlaceholderOneLine(p: string)
    requires p == NetlistPlaceholder
    ensures Split(p, '\n') == [p]
  {
    assert '\n' !in p by {
      PlaceholderChars(p);
    }
    SplitNoSeparator(p, '\n');
  }

  lemma TemplateRowsLiteral()
    ensures TemplateRows() == TemplateFieldLines
  {
    TemplateRowsFirst();
    TemplateRowsLast();
    assert TemplateRows() == TemplateRows()[..4] + TemplateRows()[4..];
  }

  lemma TemplateRowsFirst()
    ensures TemplateRows()[..4] ==
      ["| Title                  | Click or tap here to enter text. |",
       "| Part Number            | PN-XXX                    |",
       "| Revision               | A1-00                     |",
       "| Interface              | I2C / SPI / UART / Analog / Digital |"]
  {
    TitleRow();
    PartNumberRow();
    RevisionRow();
    InterfaceRow();
  }

  lemma TemplateRowsLast()
    ensures TemplateRows()[4..] ==
      ["| Type of Design         | Specialized / Fundamental |",
       "| Level of Novelty       | Inventive / Common        |",
       "| Performance Feedback   | Exists / Does Not Exist   |",
       "| Verified Performance   | Yes / No                  |"]
  {
    DesignRow();
    NoveltyRow();
    FeedbackRow();
    VerifiedRow();
  }

  // ---------------------------------------------------------------------
  // Literal facts about the eight template rows
  //
  // Each template row is compared with the writer's field row in four small
  // steps, one lemma each: Padding (the padded key and value), Text (the
  // left and right parts), Whole (the line as left part plus right part)
  // and Row, which puts them together through RowFromParts.
  // ---------------------------------------------------------------------

  /** A metadata row assembled from its padded key and padded value. */
  lemma RowFromParts(key: string, value: string, kp: string, vp: string, left: string, right: string, line: string)
    requires kp == PadRight(key, 22) && vp == PadRight(value, 25)
    requires left == "| " + kp + " | " && right == vp + " |" && line == left + right
    ensures line == FieldRowLine(key, PadRight(value, 25))
  {
  }

  lemma TitlePadding()
    ensures PadRight("Title", 22) == "Title                 "
    ensures PadRight("Click or tap here to enter text.", 25) == "Click or tap here to enter text."
  {
  }

  lemma TitleText()
    ensures "| " + "Title                 " + " | " == "| Title                  | "
    ensures "Click or tap here to enter text." + " |" == "Click or tap here to enter text. |"
  {
  }

  lemma TitleWhole()
    ensures "| Title                  | Click or tap here to enter text. |" == "| Title                  | " + "Click or tap here to enter text. |"
  {
  }

  lemma TitleRow()
    ensures "| Title                  | Click or tap here to enter text. |" == FieldRowLine("Title", PadRight("Click or tap here to enter text.", 25))
  {
    TitlePadding();
    TitleText();
    TitleWhole();
    RowFromParts("Title", "Click or tap here to enter text.", "Title                 ", "Click or tap here to enter text.", "| Title                  | ", "Click or tap here to enter text. |", "| Title                  | Click or tap here to enter text. |");
  }

  lemma PartNumberPadding()
    ensures PadRight("Part Number", 22) == "Part Number           "
    ensures PadRight("PN-XXX", 25) == "PN-XXX                   "
  {
  }

  lemma PartNumberText()
    ensures "| " + "Part Number           " + " | " == "| Part Number            | "
    ensures "PN-XXX                   " + " |" == "PN-XXX                    |"
  {
  }

  lemma PartNumberWhole()
    ensures "| Part Number            | PN-XXX                    |" == "| Part Number            | " + "PN-XXX                    |"
  {
  }

  lemma PartNumberRow()
    ensures "| Part Number            | PN-XXX                    |" == FieldRowLine("Part Number", PadRight("PN-XXX", 25))
  {
    PartNumberPadding();
    PartNumberText();
    PartNumberWhole();
    RowFromParts("Part Number", "PN-XXX", "Part Number           ", "PN-XXX                   ", "| Part Number            | ", "PN-XXX                    |", "| Part Number            | PN-XXX                    |");
  }

  lemma RevisionPadding()
    ensures PadRight("Revision", 22) == "Revision              "
    ensures PadRight("A1-00", 25) == "A1-00                    "
  {
  }

  lemma RevisionText()
    ensures "| " + "Revision              " + " | " == "| Revision               | "
    ensures "A1-00                    " + " |" == "A1-00                     |"
  {
  }

  lemma RevisionWhole()
    ensures "| Revision               | A1-00                     |" == "| Revision               | " + "A1-00                     |"
  {
  }

  lemma RevisionRow()
    ensures "| Revision               | A1-00                     |" == FieldRowLine("Revision", PadRight("A1-00", 25))
  {
    RevisionPadding();
    RevisionText();
    RevisionWhole();
    RowFromParts("Revision", "A1-00", "Revision              ", "A1-00                    ", "| Revision               | ", "A1-00                     |", "| Revision               | A1-00                     |");
  }

  lemma InterfacePadding()
    ensures PadRight("Interface", 22) == "Interface             "
    ensures PadRight("I2C / SPI / UART / Analog / Digital", 25) == "I2C / SPI / UART / Analog / Digital"
  {
  }

  lemma InterfaceText()
    ensures "| " + "Interface             " + " | " == "| Interface              | "
    ensures "I2C / SPI / UART / Analog / Digital" + " |" == "I2C / SPI / UART / Analog / Digital |"
  {
  }

  lemma InterfaceWhole()
    ensures "| Interface              | I2C / SPI / UART / Analog / Digital |" == "| Interface              | " + "I2C / SPI / UART / Analog / Digital |"
  {
  }

  lemma InterfaceRow()
    ensures "| Interface              | I2C / SPI / UART / Analog / Digital |" == FieldRowLine("Interface", PadRight("I2C / SPI / UART / Analog / Digital", 25))
  {
    InterfacePadding();
    InterfaceText();
    InterfaceWhole();
    RowFromParts("Interface", "I2C / SPI / UART / Analog / Digital", "Interface             ", "I2C / SPI / UART / Analog / Digital", "| Interface              | ", "I2C / SPI / UART / Analog / Digital |", "| Interface              | I2C / SPI / UART / Analog / Digital |");
  }

  lemma DesignPadding()
    ensures PadRight("Type of Design", 22) == "Type of Design        "
    ensures PadRight("Specialized / Fundamental", 25) == "Specialized / Fundamental"
  {
  }

  lemma DesignText()
    ensures "| " + "Type of Design        " + " | " == "| Type of Design         | "
    ensures "Specialized / Fundamental" + " |" == "Specialized / Fundamental |"
  {
  }

  lemma DesignWhole()
    ensures "| Type of Design         | Specialized / Fundamental |" == "| Type of Design         | " + "Specialized / Fundamental |"
  {
  }

  lemma DesignRow()
    ensures "| Type of Design         | Specialized / Fundamental |" == FieldRowLine("Type of Design", PadRight("Specialized / Fundamental", 25))
  {
    DesignPadding();
    DesignText();
    DesignWhole();
    RowFromParts("Type of Design", "Specialized / Fundamental", "Type of Design        ", "Specialized / Fundamental", "| Type of Design         | ", "Specialized / Fundamental |", "| Type of Design         | Specialized / Fundamental |");
  }

  lemma NoveltyPadding()
    ensures PadRight("Level of Novelty", 22) == "Level of Novelty      "
    ensures PadRight("Inventive / Common", 25) == "Inventive / Common       "
  {
  }

  lemma NoveltyText()
    ensures "| " + "Level of Novelty      " + " | " == "| Level of Novelty       | "
    ensures "Inventive / Common       " + " |" == "Inventive / Common        |"
  {
  }

  lemma NoveltyWhole()
    ensures "| Level of Novelty       | Inventive / Common        |" == "| Level of Novelty       | " + "Inventive / Common        |"
  {
  }

  lemma NoveltyRow()
    ensures "| Level of Novelty       | Inventive / Common        |" == FieldRowLine("Level of Novelty", PadRight("Inventive / Common", 25))
  {
    NoveltyPadding();
    NoveltyText();
    NoveltyWhole();
    RowFromParts("Level of Novelty", "Inventive / Common", "Level of Novelty      ", "Inventive / Common       ", "| Level of Novelty       | ", "Inventive / Common        |", "| Level of Novelty       | Inventive / Common        |");
  }

  lemma FeedbackPadding()
    ensures PadRight("Performance Feedback", 22) == "Performance Feedback  "
    ensures PadRight("Exists / Does Not Exist", 25) == "Exists / Does Not Exist  "
  {
  }

  lemma FeedbackText()
    ensures "| " + "Performance Feedback  " + " | " == "| Performance Feedback   | "
    ensures "Exists / Does Not Exist  " + " |" == "Exists / Does Not Exist   |"
  {
  }

  lemma FeedbackWhole()
    ensures "| Performance Feedback   | Exists / Does Not Exist   |" == "| Performance Feedback   | " + "Exists / Does Not Exist   |"
  {
  }

  lemma FeedbackRow()
    ensures "| Performance Feedback   | Exists / Does Not Exist   |" == FieldRowLine("Performance Feedback", PadRight("Exists / Does Not Exist", 25))
  {
    FeedbackPadding();
    FeedbackText();
    FeedbackWhole();
    RowFromParts("Performance Feedback", "Exists / Does Not Exist", "Performance Feedback  ", "Exists / Does Not Exist  ", "| Performance Feedback   | ", "Exists / Does Not Exist   |", "| Performance Feedback   | Exists / Does Not Exist   |");
  }

  lemma VerifiedPadding()
    ensures PadRight("Verified Performance", 22) == "Verified Performance  "
    ensures PadRight("Yes / No", 25) == "Yes / No                 "
  {
  }

  lemma VerifiedText()
    ensures "| " + "Verified Performance  " + " | " == "| Verified Performance   | "
    ensures "Yes / No                 " + " |" == "Yes / No                  |"
  {
  }

  lemma VerifiedWhole()
    ensures "| Verified Performance   | Yes / No                  |" == "| Verified Performance   | " + "Yes / No                  |"
  {
  }

  lemma VerifiedRow()
    ensures "| Verified Performance   | Yes / No                  |" == FieldRowLine("Verified Performance", PadRight("Yes / No", 25))
  {
    VerifiedPadding();
    VerifiedText();
    VerifiedWhole();
    RowFromParts("Verified Performance", "Yes / No", "Verified Performance  ", "Yes / No                 ", "| Verified Performance   | ", "Yes / No                  |", "| Verified Performance   | Yes / No                  |");
  }
}
