# Parts catalog: entry files and folder metadata

The parts catalog tool keeps a tree of folders. Each folder holds one Markdown file per circuit entry, plus a JSON record describing the folder. This project models the tool's core in Dafny:

- **The entry file format.** The Markdown writer (`build_markdown`) and reader (`parse_markdown`, with `find_section`, the metadata row pattern and `parse_table`) are modelled. So are the template written for a new entry, and the title lookup that fills the tree's Description column.
- **Loading and saving an entry.** An entry is loaded into the form and saved from it again. The model proves what one cycle, and any number of cycles, does to a file.
- **The folder record.** `read_folder_meta` brings older layouts up to date. The model covers the tag join and split, saving the folder form, and the folder title shown in the tree.
- **Small helpers.** These are the path of a folder's metadata file, the file-name rule for a new entry, and the tree filter.

A text is modelled as its list of lines. This is the view the reader takes with `splitlines`; the writer's `"\n".join` is the inverse view. Each routine that works with a loop or an accumulator is a `method`. Each method is proved equal to an index-based specification function, and the properties are lemmas about those functions.

The main results:

- **Round trip.** `EntryRoundTrip.RoundTrip` shows that reading back a written entry gives `Expected(e)`. The fields come back stripped. An empty Used On table reads back as the pair ("(None)", "0"), and an empty netlist as its placeholder. Each table comes back fitted to its header count, with the divider row of dashes read as the first row. The reader steps past the header row only (`parse_table`, lines 841-842). So `EntryCycle.DashRowsGrow` shows that every load and save adds one more row of dashes at the top of the Partlist, Pin Interface and Tests tables, and leaves everything else as it was. The model follows the code here.
- **Tolerances.** The reader never fails. A missing section reads as empty (`EntryParse.MissingSection`). A table section without a table reads the next section's table, since the header search does not stop at a heading (`EntryParse.EmptySectionReadsNext`). Of two metadata rows naming one field, the later one wins (`EntryParse.LastRowWins`).
- **Template.** `EntryTemplate.TemplateIsDocument` shows that the new-entry template is exactly the writer's layout, with the placeholders in the fields and the sections empty. `EntryTemplate.TemplateParse` gives what reading it produces.
- **Folder record.** `FolderMeta.BackfillFacts` gives the keys and values of a folder record after `read_folder_meta`. `FolderMeta.BackfillIdempotent` shows that filling in a record a second time changes nothing. `FolderMeta.SaveLoadSave` shows that saving the form, loading the saved record and saving again changes only "Last Updated".

## Model

| member | source | states |
|---|---|---|
| Text.Strip | parts_catalog_tool.py:794 | like Python's `str.strip()`, the result has no whitespace at either end and holds only characters of the input; Text.LStripSuffix and Text.RStripPrefix pin its exact value |
| Text.LStripSuffix | parts_catalog_tool.py:794 | the left strip removes a prefix made only of whitespace and keeps the rest as it is |
| Text.RStripPrefix | parts_catalog_tool.py:794 | the right strip removes a suffix made only of whitespace and keeps the rest as it is |
| Text.StripPadded | parts_catalog_tool.py:862-864 | stripping a value padded with whitespace on both sides gives the stripped value, which is why padded cells read back unpadded |
| Text.StripIdempotent | parts_catalog_tool.py:923 | stripping an already stripped text changes nothing |
| Text.Upper | parts_catalog_tool.py:975 | upper-casing keeps the length and maps every character by itself |
| Text.UpperIdempotent | parts_catalog_tool.py:975-976 | upper-casing a title twice is the same as once, so a saved folder title is saved again unchanged |
| Text.PadRight | parts_catalog_tool.py:864 | `{key:<22}` keeps the key as a prefix and pads it with spaces to the width, never cutting it |
| Text.Split | parts_catalog_tool.py:972 | `str.split(sep)` gives at least one piece and no piece holds the separator |
| Text.JoinSplit | parts_catalog_tool.py:875 | the netlist written as one block is its lines joined with newlines: joining the pieces of a split with the separator gives back the text |
| Text.SplitJoin | parts_catalog_tool.py:895-913 | splitting lines joined with a separator none of them holds gives back the lines |
| CatalogPaths.FolderMetaPath | parts_catalog_tool.py:57-58 | a folder's metadata file sits directly inside the folder and is named after it with ".json" appended |
| CatalogPaths.FolderMetaPathInjective | parts_catalog_tool.py:57-58 | two folders share a metadata file exactly when they are the same folder |
| CatalogPaths.AcceptsRow | parts_catalog_tool.py:143-151 | an invalid row is never shown; a valid folder always is; a valid file is shown exactly when its name ends in "." followed by "m" or "M" and then "d" or "D" |
| CatalogPaths.MetaFileHidden | parts_catalog_tool.py:143-151 | the tree filter never shows a folder's own JSON metadata file |
| CatalogPaths.FoldersShown | parts_catalog_tool.py:143-151 | the tree filter shows every valid folder, whatever its name |
| CatalogPaths.EntryFileName | parts_catalog_tool.py:1113-1116 | no file is made exactly when the dialog is cancelled or the name is blank; otherwise the name is stripped and gets ".md" unless it ends with it in any letter case |
| CatalogPaths.EntryFileShown | parts_catalog_tool.py:1115-1116 | every file name a new entry receives passes the tree filter for Markdown files |
| CatalogPaths.EntryNameKept | parts_catalog_tool.py:1115-1116 | a stripped name already ending in ".md" is used as typed |
| CatalogPaths.EntryFileNameIdempotent | parts_catalog_tool.py:1115-1116 | normalising a normalised entry name changes nothing |
| EntryFormat.DefaultFields | parts_catalog_tool.py:786 | the reader starts from exactly the fields of the field order, all empty |
| EntryFormat.DividerFor | parts_catalog_tool.py:69-71 | the divider is exactly as long as the header row it sits under, and holds only pipes, blanks and dashes; EntryFormat.DividerCells gives its cells |
| EntryFormat.Fit | parts_catalog_tool.py:882 | a row written to a table has exactly the header count of cells: its own cells first, then empty ones |
| EntryFormat.BuildTable | parts_catalog_tool.py:878-884 | the lines built are the header row, the dash divider and every row fitted to the header count |
| EntryFormat.BuildFieldRows | parts_catalog_tool.py:863-864 | one row per field in field order, the key padded to 22 and the value stripped |
| EntryFormat.BuildMetaLines | parts_catalog_tool.py:859-864 | the metadata block is the fixed two-line header followed by the field rows |
| EntryFormat.BuildUsedLines | parts_catalog_tool.py:867-872 | the Used On table lists one row per pair, with "(None)" and "0" standing in for empty cells, or the single "(None)" row when there are none |
| EntryFormat.BuildMarkdown | parts_catalog_tool.py:856-913 | the written text is the preamble with the date, the metadata block, and the Used On, Netlist, Partlist, Pin Interface and Tests sections, each after a blank line |
| EntryFormat.Render | parts_catalog_tool.py:856-913 | the written text has 37 lines of its own plus one per Used On row, netlist line and table row; the third line carries the date, and each section heading sits at the line that follows from the sections before it |
| EntryFormat.NewEntryTemplate | parts_catalog_tool.py:73-112 | the new-entry template has 39 lines, the third carrying the date, and its headings at the lines where the writer puts them for one Used On row, one netlist line and empty tables; EntryTemplate.TemplateIsDocument shows it is the writer's layout of the placeholder record |
| EntryFormat.RowLineCells | parts_catalog_tool.py:844-845 | the cells read from a written row are its cells stripped, when no cell holds a pipe |
| EntryFormat.RowLineMdRow | parts_catalog_tool.py:60 | the metadata row pattern matches a written two-cell row and yields both cells stripped |
| EntryFormat.MdRow | parts_catalog_tool.py:60 | a match needs a pipe at both ends of the line, and yields a key and a value that are stripped and hold no pipe; EntryFormat.RowLineMdRow shows that every written two-cell row matches |
| EntryFormat.DividerCells | parts_catalog_tool.py:69-71 | the cells read from a divider are one run of dashes per header, as long as the header |
| EntryFormat.FieldRowIsRowLine | parts_catalog_tool.py:864 | a field row is an ordinary two-cell table row |
| EntryFormat.UsedRowIsRowLine | parts_catalog_tool.py:870 | a Used On row is an ordinary two-cell table row |
| EntryFormat.TableRowCells | parts_catalog_tool.py:882-883 | a written body row reads back as the stripped cells of the fitted row |
| EntryFormat.TableShape | parts_catalog_tool.py:878-884 | a written table has two more lines than rows, and its header, divider and body rows read back as the stripped headers, the dash runs and the fitted rows |
| EntryParse.FirstFromSpec | parts_catalog_tool.py:790-795 | a section search finds nothing exactly when no line matches, and otherwise the first match |
| EntryParse.FindSection | parts_catalog_tool.py:790-795 | returns the index of the first line whose stripped, lower-cased text is "## " plus the lower-cased title |
| EntryParse.ScanFields | parts_catalog_tool.py:798-810 | the fields are read from the rows under the first field table header, starting two lines below it |
| EntryParse.ApplyRows | parts_catalog_tool.py:802-808 | each pipe line in a row of pipe lines overwrites a field it names, and the run stops at the first other line |
| EntryParse.ApplyFieldRow | parts_catalog_tool.py:804-807 | a row never adds a field the field order does not know |
| EntryParse.FieldScanKeys | parts_catalog_tool.py:798-810 | the fields read are exactly the fields started from |
| EntryParse.FirstFieldTable | parts_catalog_tool.py:798-810 | only the first field table is read; the scan stops after it |
| EntryParse.ParseUsed | parts_catalog_tool.py:812-822 | the Used On pairs are the matching rows after the section's header row and divider |
| EntryParse.ReadChunk | parts_catalog_tool.py:827-831 | the netlist chunk is every line up to the next line starting "## " |
| EntryParse.TrimBlankLines | parts_catalog_tool.py:832-833 | the chunk loses its blank lines at both ends and nothing else |
| EntryParse.ParseNetlist | parts_catalog_tool.py:824-834 | the netlist is the trimmed chunk joined with newlines, or "" without a Netlist section |
| EntryParse.SkipToPipe | parts_catalog_tool.py:841 | the header search stops at the first pipe line from its start, or at the end of the lines |
| EntryParse.ReadUsedRows | parts_catalog_tool.py:818-822 | the pairs read are those of every row of the pipe run that the row pattern matches, in order |
| EntryParse.ReadTableRows | parts_catalog_tool.py:843-847 | the rows read are the cells of every line of the pipe run, in order |
| EntryParse.ParseTable | parts_catalog_tool.py:837-848 | a table's rows are the cells of every pipe line from the line after its header row on, so the divider is read as a row |
| EntryParse.Parse | parts_catalog_tool.py:784-854 | the record read always has exactly the fields of the field order |
| EntryParse.ParseMarkdown | parts_catalog_tool.py:784-854 | reading a file gives the fields, Used On pairs, netlist and three tables that the specification functions describe |
| EntryParse.ReadTitleFromMd | parts_catalog_tool.py:215-227 | an unreadable file has title ""; otherwise the title is the second cell of the first pipe row whose first cell is "title" in any case |
| EntryParse.TitleOf | parts_catalog_tool.py:215-227 | the title is "" when no line is a title row, and otherwise the second cell of the first title row; it is always stripped |
| EntryParse.SearchCrossesSections | parts_catalog_tool.py:816 | the header search passes over later headings: with no pipe line after a section's heading up to a later line, the Used On pairs and table rows read are those read from that later line |
| EntryParse.EmptySectionReadsNext | parts_catalog_tool.py:837-852 | a table section with no table of its own reads the rows of the next section's table |
| EntryParse.LastRowWins | parts_catalog_tool.py:807 | of metadata rows naming the same field, the last one sets it |
| EntryParse.MissingSection | parts_catalog_tool.py:812-852 | a missing section reads as an empty table, no Used On pairs or an empty netlist |
| EntryParse.UsedOfAppend | parts_catalog_tool.py:812-822 | lines before the Used On heading that hold no such heading do not change the pairs read |
| EntryParse.NetlistOfAppend | parts_catalog_tool.py:824-834 | lines before the Netlist heading that hold no such heading do not change the netlist read |
| EntryParse.TableOfAppend | parts_catalog_tool.py:837-852 | lines before a table's heading that hold no such heading do not change the table read |
| EntryParse.FieldScanAppend | parts_catalog_tool.py:798-810 | lines before the field table that hold no field header do not change the fields read |
| EntryParse.TitleAppend | parts_catalog_tool.py:220-226 | lines before the title row that hold no title row do not change the title |
| EntryParse.TrimEnds | parts_catalog_tool.py:832-833 | trimming blank lines from a block padded by one blank line each side gives back the block, when its ends are not blank |
| EntryRoundTrip.Expected | parts_catalog_tool.py:784-913 | what reading a written entry gives: the fields of the field order, at least one Used On pair, and every table one row longer than written |
| EntryRoundTrip.RoundTrip | parts_catalog_tool.py:784-913 | reading a written entry gives the fields stripped, the pairs with "(None)"/"0" for empty cells (or the single "(None)" pair), the stripped netlist or its placeholder, and each table as the divider's dashes followed by the fitted, stripped rows |
| EntryRoundTrip.ParseDocument | parts_catalog_tool.py:784-854 | reading any text laid out like a written entry gives the fields its metadata rows set and the sections as written |
| EntryRoundTrip.TitleRoundTrip | parts_catalog_tool.py:215-227 | the tree title of a written entry is its stripped Title field, when that field holds no pipe and no line break |
| EntryRoundTrip.FieldRowLinesRead | parts_catalog_tool.py:863-864 | reading back the written field rows gives every field of the field order, stripped |
| EntryRoundTrip.FieldRowsRead | parts_catalog_tool.py:802-808 | reading a run of rows that each name a field sets exactly those fields and keeps the others |
| EntryRoundTrip.WrittenRowsSay | parts_catalog_tool.py:864 | every written field row is a pipe line the row pattern matches, yielding its key and stripped value |
| EntryRoundTrip.FieldRowRead | parts_catalog_tool.py:60 | the row pattern reads a field row back as its key and stripped value |
| EntryRoundTrip.FieldOrderReadable | parts_catalog_tool.py:38-47 | the field keys hold no pipe and no outer whitespace, and are the keys the reader starts from |
| EntryRoundTrip.Overlay | parts_catalog_tool.py:807 | overwriting fields by key keeps the key set and changes only the named fields |
| EntryRoundTrip.UsedBodyRead | parts_catalog_tool.py:867-872 | the written Used On rows read back as the expected pairs |
| EntryRoundTrip.UsedRowLineRead | parts_catalog_tool.py:870 | a written Used On row reads back as its two cells, each stripped, "(None)" and "0" for empty ones |
| EntryRoundTrip.UsedNoneRowRead | parts_catalog_tool.py:872 | the "(None)" row reads back as the pair ("(None)", "0") |
| EntryRoundTrip.PaddedPairRead | parts_catalog_tool.py:60 | a two-cell row padded with spaces reads back as its unpadded cells |
| EntryRoundTrip.UsedHead | parts_catalog_tool.py:812-822 | a written Used On section reads back as the expected pairs |
| EntryRoundTrip.NetlistHead | parts_catalog_tool.py:824-834 | a written Netlist section reads back as the stripped netlist, or the placeholder when it is blank |
| EntryRoundTrip.NetlistAfterHeading | parts_catalog_tool.py:824-834 | a netlist block under its heading reads back as its lines joined with newlines |
| EntryRoundTrip.TrimBlankEnds | parts_catalog_tool.py:832-833 | the blank line after the heading and the one before the next section are trimmed away |
| EntryRoundTrip.SplitEnds | parts_catalog_tool.py:875 | a stripped netlist's first and last lines are not blank |
| EntryRoundTrip.TableHead | parts_catalog_tool.py:837-848 | a written table section reads back as the dash row followed by the fitted, stripped rows |
| EntryRoundTrip.TableLinesRead | parts_catalog_tool.py:878-884 | the lines from the divider on read back as the dash row and the fitted, stripped rows |
| EntryRoundTrip.TableDividerRead | parts_catalog_tool.py:69-71 | the divider line reads back as one run of dashes per header |
| EntryRoundTrip.HeadingFound | parts_catalog_tool.py:790-795 | a written heading is found by the section search for its title |
| EntryRoundTrip.OtherHeading | parts_catalog_tool.py:790-795 | a heading of another length, or differing in some letter ignoring case, is not found for a title |
| EntryRoundTrip.DocFields | parts_catalog_tool.py:798-810 | in a written entry the field scan reads exactly the metadata rows |
| EntryRoundTrip.DocTitle | parts_catalog_tool.py:215-227 | in a written entry the title lookup reads the first metadata row |
| EntryRoundTrip.MetaHeadLines | parts_catalog_tool.py:860-861 | the metadata header is a field table header, and neither it nor the divider is a title row |
| EntryRoundTrip.TitleRowRead | parts_catalog_tool.py:864 | the written Title row is a title row whose second cell is the stripped title |
| EntryRoundTrip.UsedTailUsed | parts_catalog_tool.py:812-822 | the Used On pairs of a written entry come from its own section |
| EntryRoundTrip.UsedTailNetlist | parts_catalog_tool.py:824-834 | the netlist of a written entry comes from its own section |
| EntryRoundTrip.UsedTailPart | parts_catalog_tool.py:850 | the Partlist rows of a written entry come from its own section |
| EntryRoundTrip.UsedTailPin | parts_catalog_tool.py:851 | the Pin Interface rows of a written entry come from its own section |
| EntryRoundTrip.UsedTailTests | parts_catalog_tool.py:852 | the Tests rows of a written entry come from its own section |
| EntryTemplate.TemplateIsDocument | parts_catalog_tool.py:73-112 | the new-entry template is the writer's layout, with the placeholder rows as metadata and every section empty |
| EntryTemplate.TemplateSectionBlock | parts_catalog_tool.py:88-111 | the template's sections are exactly what the writer produces for an entry with no pairs, no netlist and no table rows |
| EntryTemplate.TemplateRowsLiteral | parts_catalog_tool.py:79-86 | the template's eight metadata rows are the field rows of the field order, each placeholder padded to 25 |
| EntryTemplate.TemplateParse | parts_catalog_tool.py:73-112 | reading the template gives every placeholder as its field, the pair ("(None)", "0"), the netlist placeholder and one dash row per table |
| EntryTemplate.TemplateFields | parts_catalog_tool.py:77-86 | the template's metadata rows read back as the placeholders |
| EntryTemplate.TemplateTitle | parts_catalog_tool.py:79 | a new entry's tree title is "Click or tap here to enter text." |
| EntryTemplate.Placeholders | parts_catalog_tool.py:38-47 | the placeholders cover exactly the fields of the field order |
| EntryTemplate.PlaceholderAt | parts_catalog_tool.py:38-47 | the placeholder of a key in an order without repeated keys is the one paired with it |
| EntryTemplate.FieldOrderValues | parts_catalog_tool.py:38-47 | no key is repeated in the field order, and no placeholder holds a pipe or outer whitespace |
| EntryTemplate.BlankSectionsRead | parts_catalog_tool.py:88-111 | the empty sections read back as the "(None)" pair, the netlist placeholder and a dash row per table |
| EntryTemplate.NoRowsTable | parts_catalog_tool.py:98-111 | a table written with no rows reads back as its dash row alone |
| EntryCycle.LoadRows | parts_catalog_tool.py:768-779 | each table row shown in the form is padded with empty cells and cut to the table's width |
| EntryCycle.LoadTable | parts_catalog_tool.py:702-707 | a table is filled with one row per record row, n cells each, and "" for missing cells |
| EntryCycle.LoadForm | parts_catalog_tool.py:743-779 | the form holds exactly one text per field of the field order |
| EntryCycle.HarvestTable | parts_catalog_tool.py:933-941 | a table is saved as one row per form row, n stripped cells each, and "" for missing cells |
| EntryCycle.StripPairs | parts_catalog_tool.py:925-929 | every Used On pair is saved with both cells stripped |
| EntryCycle.HarvestForm | parts_catalog_tool.py:916-945 | the saved record has exactly the fields of the field order, every field value and every Used On cell stripped |
| EntryCycle.Cycle | parts_catalog_tool.py:743-956 | whatever the file held, one load and save writes a whole entry dated the day of the save; EntryCycle.CycleRender gives the text it writes for a written entry |
| EntryCycle.Next | parts_catalog_tool.py:743-956 | the record saved after loading the text of e has every field stripped, the Used On pairs equal to the pairs the reader gives for e's text (blanks as "(None)"/"0", none as the single None pair), stripped, the netlist as written, and a row of dashes on top of each fixed-header table, whose rows are fitted to the header's width |
| EntryCycle.AddDashRows | parts_catalog_tool.py:841-842 | one more dash row is put on top of each table, and nothing else changes |
| EntryCycle.NormalStable | parts_catalog_tool.py:768-779 | rows already at the table's width with stripped cells survive a load and a save unchanged |
| EntryCycle.CycleRender | parts_catalog_tool.py:743-956 | loading a written entry and saving it writes the record `Next(e)` |
| EntryCycle.ExpectedNext | parts_catalog_tool.py:743-956 | what one load and save does to what a file reads as: one dash row on top of each table |
| EntryCycle.WfNext | parts_catalog_tool.py:916-945 | a record fit to be written stays fit after a load and a save, its Used On cells stripped |
| EntryCycle.Chain | parts_catalog_tool.py:743-956 | after k loads and saves, what the file reads as has k more dash rows on top of each table |
| EntryCycle.CycleStep | parts_catalog_tool.py:743-956 | a load and a save of a saved record gives a saved record and writes its next record |
| EntryCycle.CyclesRender | parts_catalog_tool.py:743-956 | k loads and saves of a written entry write the record reached after k steps |
| EntryCycle.CyclesParse | parts_catalog_tool.py:743-956 | after k loads and saves, reading the file gives the first read with k more dash rows per table |
| EntryCycle.DashRowsGrow | parts_catalog_tool.py:837-848 | after k loads and saves of a saved form, the fields, pairs and netlist read as after the first save, and each table holds k + 1 dash rows above its fitted rows |
| EntryCycle.HarvestSaved | parts_catalog_tool.py:925-929 | a record saved from the form has stripped Used On cells |
| FolderMeta.SetDefault | parts_catalog_tool.py:1017-1025 | like `dict.setdefault`, adds the key only when it is missing and keeps every present value |
| FolderMeta.DefaultMeta | parts_catalog_tool.py:1002-1010 | the default record has exactly the seven record keys |
| FolderMeta.KeepTags | parts_catalog_tool.py:972 | only non-empty, stripped pieces are kept as tags |
| FolderMeta.SplitTags | parts_catalog_tool.py:1022 | every tag split from text is non-empty, stripped and free of commas |
| FolderMeta.JoinTags | parts_catalog_tool.py:738 | cut at its commas, the joined text gives the first tag and then every other tag behind one blank, when no tag holds a comma; FolderMeta.TagsRoundTrip splits it back into the tags |
| FolderMeta.TagList | parts_catalog_tool.py:979 | the tags are stored as a JSON list of the same strings in the same order |
| FolderMeta.TagsRoundTrip | parts_catalog_tool.py:736-739 | splitting the comma-joined text shown in the form gives back the stored tags |
| FolderMeta.TagsStable | parts_catalog_tool.py:971-972 | splitting, joining and splitting again gives the tags of the first split |
| FolderMeta.JoinStripped | parts_catalog_tool.py:739 | the joined tags text has no whitespace at either end, so the save's strip keeps it |
| FolderMeta.Backfilled | parts_catalog_tool.py:1014-1026 | the record fails (the exception path) exactly when a legacy "title" or "description" is truthy but not a string; otherwise it has its own keys plus every record key |
| FolderMeta.ReadFolderMeta | parts_catalog_tool.py:999-1036 | a missing, unreadable, non-object or failing file gives the default record; otherwise the brought-up-to-date record, which always holds every record key |
| FolderMeta.FillTitles | parts_catalog_tool.py:1017-1018 | TITLE and DESCRIPTION are filled from upper-cased legacy keys, failing exactly on a truthy non-string legacy value |
| FolderMeta.FillDefaults | parts_catalog_tool.py:1019-1025 | the remaining keys get their defaults and a tags text becomes a tag list |
| FolderMeta.FillTags | parts_catalog_tool.py:1021-1025 | a tags text is split into a list before Tags, Created and Last Updated get their defaults |
| FolderMeta.BackfillFacts | parts_catalog_tool.py:1014-1026 | present keys other than Tags are kept; a Tags text is split; a missing TITLE or DESCRIPTION gets the legacy value upper-cased, else ""; a missing Summary or Owner gets "", a missing Tags an empty list, a missing Created or Last Updated today |
| FolderMeta.CompleteReadsBack | parts_catalog_tool.py:1014-1026 | a record already holding every key, with a tag list, is read back unchanged |
| FolderMeta.BackfillIdempotent | parts_catalog_tool.py:1014-1026 | bringing a brought-up-to-date record up to date again, on any day, changes nothing |
| FolderMeta.DefaultReadsBack | parts_catalog_tool.py:1001-1013 | the default record written for a new folder is read back unchanged |
| FolderMeta.Strings | parts_catalog_tool.py:738-739 | a list can be joined exactly when every item is a string, and the strings are the items in order |
| FolderMeta.FolderRecord | parts_catalog_tool.py:974-982 | the saved record has exactly the seven record keys |
| FolderMeta.CreatedFor | parts_catalog_tool.py:960-968 | a save keeps the Created value of an existing file that holds an object with one, and takes today otherwise, also when the file is unreadable or holds no object |
| FolderMeta.RecordOf | parts_catalog_tool.py:974-982 | a record built from the seven values has exactly the record keys |
| FolderMeta.RecordLookups | parts_catalog_tool.py:974-982 | the saved record holds the upper-cased title and description, the stripped summary and owner, the split tags, the preserved Created date and today |
| FolderMeta.RecordFields | parts_catalog_tool.py:729-741 | the form shows each saved value as the text it was saved as, the tags joined with ", ", and the kept Created value as a text box shows it ("" for null) |
| FolderMeta.LoadFolderForm | parts_catalog_tool.py:729-741 | the form can be filled exactly when every text value present is a string or null and Tags, when present, is a string, null or a list of strings; each box then shows its stored string, or "" for a missing key or null, a list of tags joined with ", " |
| FolderMeta.SavedShown | parts_catalog_tool.py:729-741 | loading a saved record into the folder form shows what was saved, field by field, a kept null Created as ""; it fails exactly when the kept Created is neither a string nor null |
| FolderMeta.SavedReadsBack | parts_catalog_tool.py:1014-1026 | a record saved from the form is read back unchanged |
| FolderMeta.SaveLoadSave | parts_catalog_tool.py:959-982 | saving, loading the saved record into the form and saving again changes only "Last Updated", a kept null Created included; the form loads exactly when the kept Created is a string or null |
| FolderMeta.Retimed | parts_catalog_tool.py:981 | setting "Last Updated" on a record is building it with the new date |
| FolderMeta.SavedTitle | parts_catalog_tool.py:229-238 | the tree title of a folder saved from the form is its upper-cased title |
| FolderMeta.FolderTitle | parts_catalog_tool.py:229-238 | the tree shows TITLE when it is truthy, else the legacy title when truthy, else the legacy description or ""; a missing or unreadable file, or one not holding an object, shows ""; SavedTitle, LegacyTitleShown and DefaultTitle apply it to saved, legacy and default records |
| FolderMeta.LegacyTitleShown | parts_catalog_tool.py:236 | an old record with only a non-empty "title" shows that title in the tree and reads back with TITLE as it upper-cased |
| FolderMeta.DefaultTitle | parts_catalog_tool.py:229-238 | a missing or unreadable record, and the default record, show an empty tree title |

## Left out

- The Qt window, widgets, dialogs, message boxes and the file tree model are not modelled. The form is a record of the texts it holds, and the tree filter is a predicate on validity, folder-ness and name.
- File reading and writing are not modelled. An entry file reaches the model as its lines, and a folder record as an already parsed JSON value or as absent or unreadable. JSON text encoding and decoding (`json.loads`, `json.dumps` with indent) are not modelled.
- JSON numbers are integers in the model; floating-point values are not modelled.
- The clock (`today_iso`) is a `date` or `today` parameter. In the source, the new-entry template takes its date once, when the module loads.
- FolderMeta.ReadFolderMeta: writing the default record to disk for a folder without a metadata file is I/O and is not modelled; the record returned is.
- Renaming reconciliation, archiving, opening a location, the ctypes helpers and the tree's cache of folder descriptions are not modelled, since they are file-system and UI operations.
- Text.Upper and Text.Lower map ASCII letters only; Python's `str.upper` and `str.lower` also map other scripts.
- Text.Strip and the IsSpace predicate cover Python's whitespace set for `str.strip()`, but lines are produced by `splitlines` on '\n' only. The other line breaks `splitlines` honours are excluded from netlist and cell text by the `Wf` and `NetlistOk` conditions, and from the Title by the `OneLine` condition of EntryRoundTrip.TitleRoundTrip.
- EntryRoundTrip.RoundTrip requires `Wf`: no cell or field holds a pipe or a line break, and no netlist line starts with "## ". The source writes such values as they are, and they do not read back.
- EntryRoundTrip.RoundTrip and the cycle lemmas put no condition on the date. The model writes the date line as one line. That matches the file only for a date without a line break, which is what `today_iso` always returns (a `YYYY-MM-DD` string).
- EntryCycle.LoadForm starts from the record the reader produced. The widgets' own editing between load and save is not modelled.
- CatalogPaths.EntryFileName models only the name rule for a new entry. Whether the file already exists, and the write of the template, are file-system checks that are not modelled.
- create_new_folder is not modelled beyond the default record it reads through FolderMeta.ReadFolderMeta.
