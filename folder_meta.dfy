/**
 * The folder metadata record: the JSON object kept beside every catalog
 * folder (in "<folder>/<folder name>.json").  It is read back with older
 * layouts brought up to date, shown in the folder form, written from the
 * form, and summed up in the tree's Description column.
 *
 * The file's contents reach the model as an already parsed JSON value;
 * the clock reaches it as the date string `today`.
 */
module FolderMeta {
  import opened Text

  /** A JSON value (numbers restricted to integers). */
  datatype Json =
    | JNull
    | JBool(b: bool)
    | JNum(n: int)
    | JStr(s: string)
    | JArr(items: seq<Json>)
    | JObj(members: map<string, Json>)

  /** What reading a folder's metadata file gives: no file at all, a file
      that cannot be read or does not hold JSON, or the value it holds. */
  datatype MetaFile = Absent | Unreadable | Loaded(doc: Json)

  /** A metadata record: a JSON object's members. */
  type Meta = map<string, Json>

  /** The keys of a record in the current layout. */
  const RecordKeys: set<string> := {"TITLE", "DESCRIPTION", "Summary", "Owner", "Tags", "Created", "Last Updated"}

  /** Python truthiness of a JSON value. */
  predicate Truthy(j: Json) {
    match j
    case JNull => false
    case JBool(b) => b
    case JNum(n) => n != 0
    case JStr(s) => s != ""
    case JArr(items) => |items| > 0
    case JObj(members) => |members| > 0
  }

  /** dict.get with a default. */
  function Get(m: Meta, k: string, default: Json): Json {
    if k in m then m[k] else default
  }

  /** dict.setdefault: a key that has a value keeps it, a missing one gets
      the given value. */
  function SetDefault(m: Meta, k: string, v: Json): (r: Meta)
    ensures r.Keys == m.Keys + {k}
    ensures forall j :: j in m ==> r[j] == m[j]
    ensures k !in m ==> r[k] == v
  {
    if k in m then m else m[k := v]
  }

  /** The record a folder gets when it has no usable metadata: every field
      blank, no tags, created and updated today. */
  function DefaultMeta(today: string): (m: Meta)
    ensures m.Keys == RecordKeys
  {
    map["TITLE" := JStr(""), "DESCRIPTION" := JStr(""), "Summary" := JStr(""), "Owner" := JStr(""),
        "Tags" := JArr([]), "Created" := JStr(today), "Last Updated" := JStr(today)]
  }

  // ---------------------------------------------------------------------
  // Tags
  // ---------------------------------------------------------------------

  /** The pieces that are not blank, each stripped. */
  function KeepTags(pieces: seq<string>): (tags: seq<string>)
    ensures forall t :: t in tags ==> t != "" && Stripped(t)
    ensures (forall p :: p in pieces ==> ',' !in p) ==> forall t :: t in tags ==> ',' !in t
  {
    if |pieces| == 0 then []
    else
      var t := Strip(pieces[0]);
      (if t != "" then [t] else []) + KeepTags(pieces[1..])
  }

  /** The tags of a comma-separated string: its comma pieces stripped,
      blank ones dropped. */
  function SplitTags(raw: string): (tags: seq<string>)
    ensures forall t :: t in tags ==> t != "" && Stripped(t) && ',' !in t
  {
    KeepTags(Split(raw, ','))
  }

  /** The tags as the form shows them: joined with ", ". Cut at its commas,
      the text gives the first tag and then every other tag behind one
      blank, when no tag holds a comma. */
  function JoinTags(tags: seq<string>): (s: string)
    ensures |tags| >= 1 && (forall t :: t in tags ==> ',' !in t) ==>
              Split(s, ',') == [tags[0]] + Spaced(tags[1..])
  {
    TagPieces(tags);
    Join(tags, ", ")
  }

  /** Every text with one blank in front. */
  function Spaced(ts: seq<string>): (r: seq<string>)
    ensures |r| == |ts| && forall i :: 0 <= i < |ts| ==> r[i] == " " + ts[i]
  {
    seq(|ts|, i requires 0 <= i < |ts| => " " + ts[i])
  }

  /** A blank in front of a ", " join is a "," join of the texts each with
      a blank in front. */
  lemma {:induction false} SpacedJoin(ys: seq<string>)
    requires |ys| >= 1
    ensures " " + Join(ys, ", ") == Join(Spaced(ys), [','])
    decreases |ys|
  {
    if |ys| > 1 {
      SpacedJoin(ys[1..]);
      assert Spaced(ys)[1..] == Spaced(ys[1..]);
      assert " " + Join(ys, ", ") == (" " + ys[0]) + [','] + (" " + Join(ys[1..], ", "));
    }
  }

  /** The comma pieces of a ", " join of comma-free texts. */
  lemma TagPieces(tags: seq<string>)
    ensures |tags| >= 1 && (forall t :: t in tags ==> ',' !in t) ==>
              Split(Join(tags, ", "), ',') == [tags[0]] + Spaced(tags[1..])
  {
    if |tags| >= 1 && (forall t :: t in tags ==> ',' !in t) {
      var pieces := [tags[0]] + Spaced(tags[1..]);
      CommaJoin(tags);
      CommaFreePieces(tags);
      SplitJoin(pieces, ',');
    }
  }

  lemma CommaJoin(tags: seq<string>)
    requires |tags| >= 1
    ensures Join(tags, ", ") == Join([tags[0]] + Spaced(tags[1..]), [','])
  {
    var pieces := [tags[0]] + Spaced(tags[1..]);
    if |tags| == 1 {
      assert pieces == [tags[0]];
    } else {
      var j := Join(tags[1..], ", ");
      SpacedJoin(tags[1..]);
      assert pieces[1..] == Spaced(tags[1..]);
      assert Join(pieces, [',']) == tags[0] + [','] + (" " + j);
      assert Join(tags, ", ") == tags[0] + ", " + j;
      CommaBlank(tags[0], j);
    }
  }

  lemma CommaBlank(h: string, j: string)
    ensures h + ", " + j == h + [','] + (" " + j)
  {
    assert ", " == [','] + " ";
  }

  lemma CommaFreePieces(tags: seq<string>)
    requires |tags| >= 1 && forall t :: t in tags ==> ',' !in t
    ensures forall x :: x in [tags[0]] + Spaced(tags[1..]) ==> ',' !in x
  {
    var pieces := [tags[0]] + Spaced(tags[1..]);
    assert tags[0] in tags;
    forall i | 0 <= i < |pieces| ensures ',' !in pieces[i] {
      if i > 0 {
        assert tags[i] in tags;
        assert pieces[i] == " " + tags[i];
      }
    }
  }

  /** A list of tags as the JSON array it is stored as. */
  function TagList(tags: seq<string>): (j: Json)
    ensures j.JArr? && |j.items| == |tags|
    ensures forall i :: 0 <= i < |tags| ==> j.items[i] == JStr(tags[i])
  {
    JArr(seq(|tags|, i requires 0 <= i < |tags| => JStr(tags[i])))
  }

  /** A piece with a space in front keeps the same tag. */
  lemma {:induction false} KeepSpaced(s: string)
    ensures KeepTags(Split(" " + s, ',')) == KeepTags(Split(s, ','))
  {
    var rest := Split(s, ',');
    assert (" " + s)[1..] == s;
    assert Split(" " + s, ',') == [" " + rest[0]] + rest[1..];
    StripPadded(" ", rest[0], "");
    assert " " + rest[0] + "" == " " + rest[0];
    assert rest[0] + "" == rest[0];
    assert ([" " + rest[0]] + rest[1..])[1..] == rest[1..];
  }

  /** A tag in front of a comma is kept as it is, ahead of the tags after
      the comma. */
  lemma KeepHead(h: string, s: string)
    requires h != "" && Stripped(h) && ',' !in h
    ensures KeepTags(Split(h + [','] + s, ',')) == [h] + KeepTags(Split(s, ','))
  {
    var rest := Split(s, ',');
    SplitConcat(h, s, ',');
    SplitNoSeparator(h, ',');
    StrippedFixed(h);
    var pieces := [h] + rest;
    assert pieces[0] == h && pieces[1..] == rest;
    assert KeepTags(pieces) == [h] + KeepTags(rest);
  }

  /** Joining two or more tags puts the first one in front of a comma. */
  lemma JoinTagsCons(tags: seq<string>)
    requires |tags| > 1
    ensures JoinTags(tags) == tags[0] + [','] + (" " + JoinTags(tags[1..]))
  {
  }

  /** Splitting the joined form of stripped, non-blank, comma-free tags
      gives the tags back. */
  lemma {:induction false} TagsRoundTrip(tags: seq<string>)
    requires forall t :: t in tags ==> t != "" && Stripped(t) && ',' !in t
    ensures SplitTags(JoinTags(tags)) == tags
    decreases |tags|
  {
    if |tags| == 1 {
      var h := tags[0];
      assert h in tags;
      SplitNoSeparator(h, ',');
      StrippedFixed(h);
      assert JoinTags(tags) == h;
      assert KeepTags([h]) == [h] + KeepTags([]);
    } else if |tags| > 1 {
      var h := tags[0];
      var tail := JoinTags(tags[1..]);
      assert h in tags;
      assert forall t :: t in tags[1..] ==> t != "" && Stripped(t) && ',' !in t by {
        assert forall t :: t in tags[1..] ==> t in tags;
      }
      TagsRoundTrip(tags[1..]);
      JoinTagsCons(tags);
      KeepHead(h, " " + tail);
      KeepSpaced(tail);
      ConsTail(tags);
    }
  }

  /** Showing the tags and splitting them again changes nothing. */
  lemma TagsStable(raw: string)
    ensures SplitTags(JoinTags(SplitTags(raw))) == SplitTags(raw)
  {
    TagsRoundTrip(SplitTags(raw));
  }

  /** The joined form of stripped, non-blank tags is stripped itself. */
  lemma {:induction false} JoinStripped(tags: seq<string>)
    requires forall t :: t in tags ==> t != "" && Stripped(t)
    ensures Stripped(JoinTags(tags))
    decreases |tags|
  {
    if |tags| == 1 {
      assert tags[0] in tags;
    } else if |tags| > 1 {
      assert tags[0] in tags;
      assert forall t :: t in tags[1..] ==> t in tags;
      JoinStripped(tags[1..]);
      var j := JoinTags(tags);
      var tail := JoinTags(tags[1..]);
      JoinFirst(tags[1..]);
      assert |tail| > 0;
      assert j == tags[0] + (", " + tail);
      assert j[0] == tags[0][0];
      assert j[|j| - 1] == tail[|tail| - 1];
    }
  }

  /** The joined form starts with the first tag. */
  lemma JoinFirst(tags: seq<string>)
    requires |tags| >= 1
    ensures |JoinTags(tags)| >= |tags[0]|
  {
  }

  // ---------------------------------------------------------------------
  // Reading a record back
  // ---------------------------------------------------------------------

  /** Upper-casing a truthy legacy value fails when it is not a string. */
  predicate LegacyFails(m: Meta, legacy: string) {
    legacy in m && Truthy(m[legacy]) && !m[legacy].JStr?
  }

  /** The argument the backfill computes for an upper-case key from its
      legacy lower-case one: the legacy string upper-cased when it is
      truthy, else the key's own value or ""; None where upper() fails. */
  function LegacyUpper(m: Meta, legacy: string, key: string): Option<Json> {
    if legacy in m && Truthy(m[legacy]) then
      if m[legacy].JStr? then Some(JStr(Upper(m[legacy].s))) else None
    else Some(Get(m, key, JStr("")))
  }

  /** What the backfill leaves under one key of the brought-up-to-date
      record. */
  function BackfillValue(m: Meta, k: string, today: string): Json {
    if k in m then
      if k == "Tags" && m[k].JStr? then TagList(SplitTags(m[k].s)) else m[k]
    else if k == "TITLE" then
      if "title" in m && Truthy(m["title"]) && m["title"].JStr? then JStr(Upper(m["title"].s)) else JStr("")
    else if k == "DESCRIPTION" then
      if "description" in m && Truthy(m["description"]) && m["description"].JStr? then JStr(Upper(m["description"].s)) else JStr("")
    else if k == "Tags" then JArr([])
    else if k == "Created" || k == "Last Updated" then JStr(today)
    else JStr("")
  }

  /** A record brought up to date, key by key; None when a legacy title or
      description is truthy but not a string. */
  function Backfilled(m: Meta, today: string): (r: Option<Meta>)
    ensures r.None? <==> LegacyFails(m, "title") || LegacyFails(m, "description")
    ensures r.Some? ==> r.value.Keys == m.Keys + RecordKeys
  {
    if LegacyFails(m, "title") || LegacyFails(m, "description") then None
    else Some(map k | k in m.Keys + RecordKeys :: BackfillValue(m, k, today))
  }

  /** Reading a folder's metadata: the default record when there is no
      file, when it cannot be read or is not a JSON object, or when a
      legacy title or description cannot be upper-cased; otherwise the
      stored object with every missing key of the current layout filled in
      and a comma-separated Tags string turned into a list. */
  method ReadFolderMeta(file: MetaFile, today: string) returns (meta: Meta)
    ensures RecordKeys <= meta.Keys
    ensures if file.Loaded? && file.doc.JObj? && Backfilled(file.doc.members, today).Some?
            then meta == Backfilled(file.doc.members, today).value
            else meta == DefaultMeta(today)
  {
    if !file.Loaded? || !file.doc.JObj? {
      return DefaultMeta(today);
    }
    var m := file.doc.members;
    var titled := FillTitles(m, today);
    if titled.None? {
      return DefaultMeta(today);
    }
    meta := FillDefaults(m, titled.value, today);
    BackfillDone(m, meta, RecordKeys, today);
  }

  /** The setdefault steps for TITLE and DESCRIPTION, each from its legacy
      lower-case key; None where a legacy value cannot be upper-cased. */
  method FillTitles(m: Meta, today: string) returns (r: Option<Meta>)
    ensures r.None? <==> LegacyFails(m, "title") || LegacyFails(m, "description")
    ensures r.Some? ==> Upto(m, r.value, {"TITLE", "DESCRIPTION"}, false, today)
  {
    var meta := m;
    BackfillStart(m, today);
    var title := LegacyUpper(meta, "title", "TITLE");
    if title.None? {
      return None;
    }
    LegacyStep(m, meta, {}, "title", "TITLE", today);
    meta := SetDefault(meta, "TITLE", title.value);
    var description := LegacyUpper(meta, "description", "DESCRIPTION");
    LegacyKept(m, meta, {"TITLE"}, "description", today);
    if description.None? {
      return None;
    }
    LegacyStep(m, meta, {"TITLE"}, "description", "DESCRIPTION", today);
    meta := SetDefault(meta, "DESCRIPTION", description.value);
    return Some(meta);
  }

  /** The remaining setdefault steps, with the conversion of a Tags string
      into its list between Owner and Tags. */
  method FillDefaults(m: Meta, titled: Meta, today: string) returns (meta: Meta)
    requires Upto(m, titled, {"TITLE", "DESCRIPTION"}, false, today)
    ensures Upto(m, meta, RecordKeys, true, today)
  {
    var done := {"TITLE", "DESCRIPTION"};
    meta := SetDefault(titled, "Summary", Get(titled, "Summary", JStr("")));
    DefaultStep(m, titled, meta, done, false, LateSummary, "Summary", JStr(""), today);
    var prev := meta;
    meta := SetDefault(prev, "Owner", Get(prev, "Owner", JStr("")));
    DefaultStep(m, prev, meta, done + {"Summary"}, false, LateOwner, "Owner", JStr(""), today);
    meta := FillTags(m, meta, done + {"Summary"} + {"Owner"}, today);
    LayoutKeys();
  }

  /** The Tags conversion and the setdefault steps for Tags, Created and
      Last Updated. */
  method FillTags(m: Meta, owned: Meta, done: set<string>, today: string) returns (meta: Meta)
    requires Upto(m, owned, done, false, today)
    requires "Tags" !in done
    ensures Upto(m, meta, done + {"Tags"} + {"Created"} + {"Last Updated"}, true, today)
  {
    meta := owned;
    TagsStep(m, meta, done, today);
    if "Tags" in meta && meta["Tags"].JStr? {
      meta := meta["Tags" := TagList(SplitTags(meta["Tags"].s))];
    }
    var prev := meta;
    meta := SetDefault(prev, "Tags", Get(prev, "Tags", JArr([])));
    DefaultStep(m, prev, meta, done, true, LateTags, "Tags", JArr([]), today);
    prev := meta;
    meta := SetDefault(prev, "Created", Get(prev, "Created", JStr(today)));
    DefaultStep(m, prev, meta, done + {"Tags"}, true, LateCreated, "Created", JStr(today), today);
    prev := meta;
    meta := SetDefault(prev, "Last Updated", Get(prev, "Last Updated", JStr(today)));
    DefaultStep(m, prev, meta, done + {"Tags"} + {"Created"}, true, LateUpdated, "Last Updated", JStr(today), today);
  }

  /** The keys the steps add make up the layout. */
  lemma LayoutKeys()
    ensures {"TITLE", "DESCRIPTION"} + {"Summary"} + {"Owner"} + {"Tags"} + {"Created"} + {"Last Updated"} == RecordKeys
  {
  }

  /** The keys filled in after TITLE and DESCRIPTION, in order. */
  datatype LateKey = LateSummary | LateOwner | LateTags | LateCreated | LateUpdated

  function KeyOf(l: LateKey): string {
    match l
    case LateSummary => "Summary"
    case LateOwner => "Owner"
    case LateTags => "Tags"
    case LateCreated => "Created"
    case LateUpdated => "Last Updated"
  }

  /** The value a missing late key is given. */
  function DefaultOf(l: LateKey, today: string): Json {
    match l
    case LateSummary => JStr("")
    case LateOwner => JStr("")
    case LateTags => JArr([])
    case LateCreated => JStr(today)
    case LateUpdated => JStr(today)
  }

  /** Part way through the backfill: the keys done so far are added, every
      key holds its final value except a Tags string not yet converted. */
  predicate Upto(m: Meta, meta: Meta, done: set<string>, converted: bool, today: string) {
    meta.Keys == m.Keys + done
    && forall k :: k in meta ==>
         meta[k] == if k == "Tags" && k in m && !converted then m[k] else BackfillValue(m, k, today)
  }

  lemma BackfillStart(m: Meta, today: string)
    ensures Upto(m, m, {}, false, today)
  {
  }

  /** The legacy lookups see the stored values. */
  lemma LegacyKept(m: Meta, meta: Meta, done: set<string>, legacy: string, today: string)
    requires Upto(m, meta, done, false, today)
    requires legacy == "title" || legacy == "description"
    requires legacy !in done
    ensures LegacyUpper(meta, legacy, "") == LegacyUpper(m, legacy, "")
    ensures LegacyFails(meta, legacy) == LegacyFails(m, legacy)
  {
  }

  /** The setdefault of an upper-case key from its legacy lower-case one. */
  lemma LegacyStep(m: Meta, meta: Meta, done: set<string>, legacy: string, key: string, today: string)
    requires Upto(m, meta, done, false, today)
    requires (legacy == "title" && key == "TITLE") || (legacy == "description" && key == "DESCRIPTION")
    requires legacy !in done && key !in done
    requires LegacyUpper(meta, legacy, key).Some?
    ensures !LegacyFails(m, legacy)
    ensures Upto(m, SetDefault(meta, key, LegacyUpper(meta, legacy, key).value), done + {key}, false, today)
  {
    LegacyKept(m, meta, done, legacy, today);
  }

  /** The setdefault of a late key to its plain default. */
  lemma DefaultStep(m: Meta, meta: Meta, next: Meta, done: set<string>, converted: bool, l: LateKey, key: string, default: Json, today: string)
    requires Upto(m, meta, done, converted, today)
    requires l == LateTags ==> converted
    requires key == KeyOf(l) && default == DefaultOf(l, today)
    requires next == SetDefault(meta, key, Get(meta, key, default))
    ensures Upto(m, next, done + {key}, converted, today)
  {
  }

  /** The conversion of a Tags string into its list. */
  lemma TagsStep(m: Meta, meta: Meta, done: set<string>, today: string)
    requires Upto(m, meta, done, false, today)
    requires "Tags" !in done
    ensures Upto(m, if "Tags" in meta && meta["Tags"].JStr? then meta["Tags" := TagList(SplitTags(meta["Tags"].s))] else meta, done, true, today)
  {
  }

  /** With every key of the layout done, the record is the one Backfilled
      describes. */
  lemma BackfillDone(m: Meta, meta: Meta, done: set<string>, today: string)
    requires Upto(m, meta, done, true, today)
    requires done == RecordKeys
    requires !LegacyFails(m, "title") && !LegacyFails(m, "description")
    ensures Backfilled(m, today) == Some(meta)
  {
    var r := Backfilled(m, today).value;
    assert meta == r;
  }

  // ---------------------------------------------------------------------
  // Properties of the backfill
  // ---------------------------------------------------------------------

  /** What the backfill keeps and what it fills in: every stored key keeps
      its value, except that a Tags string becomes its list of tags; a
      missing TITLE (DESCRIPTION) is the legacy title (description)
      upper-cased when that is a non-empty string, else ""; the other
      missing keys get "", no tags, or today. */
  lemma BackfillFacts(m: Meta, today: string)
    requires Backfilled(m, today).Some?
    ensures var r := Backfilled(m, today).value;
      && RecordKeys <= r.Keys
      && (forall k :: k in m && k != "Tags" ==> r[k] == m[k])
      && ("Tags" in m && !m["Tags"].JStr? ==> r["Tags"] == m["Tags"])
      && ("Tags" in m && m["Tags"].JStr? ==> r["Tags"] == TagList(SplitTags(m["Tags"].s)))
      && ("Tags" !in m ==> r["Tags"] == JArr([]))
      && ("TITLE" !in m && "title" in m && m["title"].JStr? && m["title"].s != "" ==> r["TITLE"] == JStr(Upper(m["title"].s)))
      && ("TITLE" !in m && ("title" !in m || !Truthy(m["title"])) ==> r["TITLE"] == JStr(""))
      && ("DESCRIPTION" !in m && "description" in m && m["description"].JStr? && m["description"].s != "" ==> r["DESCRIPTION"] == JStr(Upper(m["description"].s)))
      && ("DESCRIPTION" !in m && ("description" !in m || !Truthy(m["description"])) ==> r["DESCRIPTION"] == JStr(""))
      && ("Summary" !in m ==> r["Summary"] == JStr(""))
      && ("Owner" !in m ==> r["Owner"] == JStr(""))
      && ("Created" !in m ==> r["Created"] == JStr(today))
      && ("Last Updated" !in m ==> r["Last Updated"] == JStr(today))
  {
  }

  /** A record with every key of the layout, a Tags value that is not a
      string and legacy keys that can be upper-cased reads back unchanged. */
  lemma CompleteReadsBack(m: Meta, today: string)
    requires RecordKeys <= m.Keys && !m["Tags"].JStr?
    requires !LegacyFails(m, "title") && !LegacyFails(m, "description")
    ensures Backfilled(m, today) == Some(m)
  {
    var r := Backfilled(m, today).value;
    forall k | k in m
      ensures k in r && r[k] == m[k]
    {
      assert r[k] == BackfillValue(m, k, today);
    }
    assert r.Keys == m.Keys;
    assert r == m;
  }

  /** Reading a record that has been read once changes nothing, whatever
      the day. */
  lemma BackfillIdempotent(m: Meta, today: string, later: string)
    requires Backfilled(m, today).Some?
    ensures Backfilled(Backfilled(m, today).value, later) == Backfilled(m, today)
  {
    var r := Backfilled(m, today).value;
    assert "title" in m ==> r["title"] == m["title"];
    assert "description" in m ==> r["description"] == m["description"];
    CompleteReadsBack(r, later);
  }

  /** The record written for a folder without metadata reads back as
      itself. */
  lemma DefaultReadsBack(today: string, later: string)
    ensures Backfilled(DefaultMeta(today), later) == Some(DefaultMeta(today))
  {
    CompleteReadsBack(DefaultMeta(today), later);
  }

  // ---------------------------------------------------------------------
  // The folder form: shown from a record, saved into a record
  // ---------------------------------------------------------------------

  /** The folder form's text boxes. */
  datatype FolderForm = FolderForm(
    title: string, description: string, summary: string, owner: string,
    tags: string, created: string, updated: string)

  /** The text a box shows for a stored value: a string as it is, and ""
      for null, which the Qt binding takes as an empty string; None for
      any other value, which a text box does not take. */
  function BoxText(v: Json): Option<string> {
    match v
    case JStr(s) => Some(s)
    case JNull => Some("")
    case _ => None
  }

  /** The text a box shows for a key; a missing key shows "". */
  function ShownText(meta: Meta, k: string): Option<string> {
    BoxText(Get(meta, k, JStr("")))
  }

  /** The strings of a JSON array; None when an item is not a string. */
  function Strings(items: seq<Json>): (r: Option<seq<string>>)
    ensures r.Some? <==> forall i :: 0 <= i < |items| ==> items[i].JStr?
    ensures r.Some? ==> |r.value| == |items| && forall i :: 0 <= i < |items| ==> items[i] == JStr(r.value[i])
  {
    if |items| == 0 then Some([])
    else if !items[0].JStr? then None
    else
      match Strings(items[1..])
      case None => None
      case Some(rest) => Some([items[0].s] + rest)
  }

  /** The Tags box: a list joined with ", ", any other value as a text box
      shows it; None when the join or the box refuses the value. */
  function ShownTags(meta: Meta): Option<string> {
    match Get(meta, "Tags", JStr(""))
    case JArr(items) => (match Strings(items) case Some(tags) => Some(JoinTags(tags)) case None => None)
    case v => BoxText(v)
  }

  /** The folder form filled from a record; None when a value cannot be
      shown. */
  function LoadFolderForm(meta: Meta): (f: Option<FolderForm>)
    ensures f.Some? <==> (forall k :: k in RecordKeys - {"Tags"} && k in meta ==> meta[k].JStr? || meta[k].JNull?)
                         && ("Tags" in meta ==> meta["Tags"].JStr? || meta["Tags"].JNull?
                                                || (meta["Tags"].JArr? && Strings(meta["Tags"].items).Some?))
    ensures f.Some? ==> f.value.title == StoredText(meta, "TITLE") && f.value.description == StoredText(meta, "DESCRIPTION")
    ensures f.Some? ==> f.value.summary == StoredText(meta, "Summary") && f.value.owner == StoredText(meta, "Owner")
    ensures f.Some? ==> f.value.created == StoredText(meta, "Created") && f.value.updated == StoredText(meta, "Last Updated")
    ensures f.Some? && "Tags" in meta && meta["Tags"].JArr? ==> f.value.tags == JoinTags(Strings(meta["Tags"].items).value)
    ensures f.Some? && !("Tags" in meta && meta["Tags"].JArr?) ==> f.value.tags == StoredText(meta, "Tags")
  {
    var title := ShownText(meta, "TITLE");
    var description := ShownText(meta, "DESCRIPTION");
    var summary := ShownText(meta, "Summary");
    var owner := ShownText(meta, "Owner");
    var tags := ShownTags(meta);
    var created := ShownText(meta, "Created");
    var updated := ShownText(meta, "Last Updated");
    if title.Some? && description.Some? && summary.Some? && owner.Some? && tags.Some? && created.Some? && updated.Some?
    then Some(FolderForm(title.value, description.value, summary.value, owner.value, tags.value, created.value, updated.value))
    else None
  }

  /** A stored string, or "" for a key that is missing or holds another
      kind of value. */
  function StoredText(meta: Meta, k: string): string {
    if k in meta && meta[k].JStr? then meta[k].s else ""
  }

  /** The creation date a save keeps: the stored Created value when the
      existing file holds an object that has one, else today. */
  function CreatedFor(existing: MetaFile, today: string): (c: Json)
    ensures existing.Loaded? && existing.doc.JObj? && "Created" in existing.doc.members ==>
              c == existing.doc.members["Created"]
    ensures !(existing.Loaded? && existing.doc.JObj? && "Created" in existing.doc.members) ==> c == JStr(today)
  {
    match existing
    case Loaded(JObj(prior)) => Get(prior, "Created", JStr(today))
    case _ => JStr(today)
  }

  /** The record saved from the folder form. */
  function FolderRecord(form: FolderForm, existing: MetaFile, today: string): (r: Meta)
    ensures r.Keys == RecordKeys
  {
    RecordOf(Upper(form.title), Upper(form.description), Strip(form.summary), Strip(form.owner),
             TagList(SplitTags(Strip(form.tags))), CreatedFor(existing, today), today)
  }

  /** The seven keys a folder save writes, with their values. */
  function RecordOf(title: string, description: string, summary: string, owner: string,
                    tags: Json, created: Json, updated: string): (r: Meta)
    ensures r.Keys == RecordKeys
  {
    map["TITLE" := JStr(title),
        "DESCRIPTION" := JStr(description),
        "Summary" := JStr(summary),
        "Owner" := JStr(owner),
        "Tags" := tags,
        "Created" := created,
        "Last Updated" := JStr(updated)]
  }


  /** A saved record reads back unchanged, on any later day. */
  lemma SavedReadsBack(form: FolderForm, existing: MetaFile, today: string, later: string)
    ensures var r := FolderRecord(form, existing, today);
      Backfilled(r, later) == Some(r)
  {
    var r := FolderRecord(form, existing, today);
    CompleteReadsBack(r, later);
  }

  /** The strings of a stored tag list are the tags. */
  lemma StringsOfTagList(tags: seq<string>)
    ensures Strings(TagList(tags).items) == Some(tags)
  {
    var r := Strings(TagList(tags).items);
    assert r.Some?;
    assert r.value == tags;
  }

  /** A saved record shows in the form what was typed, normalised: the
      title and description upper-cased, the summary and owner stripped,
      the kept tags joined with ", ", the kept creation date ("" for a
      kept null) and the day of the save. Only a kept Created value that
      is neither a string nor null stops the form from loading. */
  lemma SavedShown(form: FolderForm, existing: MetaFile, today: string)
    ensures var c := CreatedFor(existing, today);
      LoadFolderForm(FolderRecord(form, existing, today)).Some? <==> c.JStr? || c.JNull?
    ensures var c := CreatedFor(existing, today);
      c.JStr? || c.JNull? ==>
        LoadFolderForm(FolderRecord(form, existing, today))
        == Some(FolderForm(Upper(form.title), Upper(form.description),
                           Strip(form.summary), Strip(form.owner),
                           JoinTags(SplitTags(Strip(form.tags))),
                           if c.JStr? then c.s else "", today))
  {
    RecordFields(form, existing, today);
  }

  /** What the form shows for each key of a saved record. */
  lemma RecordFields(form: FolderForm, existing: MetaFile, today: string)
    ensures var r := FolderRecord(form, existing, today);
      && ShownText(r, "TITLE") == Some(Upper(form.title))
      && ShownText(r, "DESCRIPTION") == Some(Upper(form.description))
      && ShownText(r, "Summary") == Some(Strip(form.summary))
      && ShownText(r, "Owner") == Some(Strip(form.owner))
      && ShownTags(r) == Some(JoinTags(SplitTags(Strip(form.tags))))
      && ShownText(r, "Created") == BoxText(CreatedFor(existing, today))
      && ShownText(r, "Last Updated") == Some(today)
  {
    var r := FolderRecord(form, existing, today);
    RecordLookups(form, existing, today);
    StringsOfTagList(SplitTags(Strip(form.tags)));
  }

  /** The value stored under each key of a saved record. */
  lemma RecordLookups(form: FolderForm, existing: MetaFile, today: string)
    ensures var r := FolderRecord(form, existing, today);
      && Get(r, "TITLE", JStr("")) == JStr(Upper(form.title))
      && Get(r, "DESCRIPTION", JStr("")) == JStr(Upper(form.description))
      && Get(r, "Summary", JStr("")) == JStr(Strip(form.summary))
      && Get(r, "Owner", JStr("")) == JStr(Strip(form.owner))
      && Get(r, "Tags", JStr("")) == TagList(SplitTags(Strip(form.tags)))
      && Get(r, "Created", JStr("")) == CreatedFor(existing, today)
      && Get(r, "Last Updated", JStr("")) == JStr(today)
  {
  }

  /** Showing a saved record and saving the form unchanged on a later day
      writes the same record again, with only Last Updated moved; the kept
      Created value, a null included, is read again from the file. The
      form loads whenever that value is a string or null. */
  lemma SaveLoadSave(form: FolderForm, existing: MetaFile, today: string, later: string)
    ensures var r := FolderRecord(form, existing, today);
      && (LoadFolderForm(r).Some? <==> r["Created"].JStr? || r["Created"].JNull?)
      && (LoadFolderForm(r).Some? ==>
            FolderRecord(LoadFolderForm(r).value, Loaded(JObj(r)), later) == r["Last Updated" := JStr(later)])
  {
    var r := FolderRecord(form, existing, today);
    var c := CreatedFor(existing, today);
    var tags := SplitTags(Strip(form.tags));
    SavedShown(form, existing, today);
    RecordLookups(form, existing, today);
    if c.JStr? || c.JNull? {
      var f := LoadFolderForm(r).value;
      assert f == FolderForm(Upper(form.title), Upper(form.description), Strip(form.summary), Strip(form.owner),
                             JoinTags(tags), if c.JStr? then c.s else "", today);
      UpperIdempotent(form.title);
      UpperIdempotent(form.description);
      StripIdempotent(form.summary);
      StripIdempotent(form.owner);
      assert SplitTags(Strip(f.tags)) == tags by {
        JoinStripped(tags);
        StrippedFixed(JoinTags(tags));
        TagsStable(Strip(form.tags));
      }
      assert CreatedFor(Loaded(JObj(r)), later) == c by {
        assert "Created" in r.Keys;
      }
      Retimed(Upper(form.title), Upper(form.description), Strip(form.summary), Strip(form.owner),
              TagList(tags), c, today, later);
    }
  }

  /** Setting Last Updated in a saved record is saving it with that date. */
  lemma Retimed(title: string, description: string, summary: string, owner: string,
                tags: Json, created: Json, updated: string, later: string)
    ensures RecordOf(title, description, summary, owner, tags, created, updated)["Last Updated" := JStr(later)]
         == RecordOf(title, description, summary, owner, tags, created, later)
  {
  }


  // ---------------------------------------------------------------------
  // The folder's Description column in the tree
  // ---------------------------------------------------------------------

  /** The value the tree shows for a folder: TITLE when truthy, else the
      legacy title when truthy, else the legacy description or "". A
      missing or unreadable file, or one that does not hold an object,
      shows "". */
  function FolderTitle(file: MetaFile): (t: Json)
    ensures !(file.Loaded? && file.doc.JObj?) ==> t == JStr("")
    ensures file.Loaded? && file.doc.JObj? ==>
              var m := file.doc.members;
              && (Truthy(Get(m, "TITLE", JNull)) ==> t == m["TITLE"])
              && (!Truthy(Get(m, "TITLE", JNull)) && Truthy(Get(m, "title", JNull)) ==> t == m["title"])
              && (!Truthy(Get(m, "TITLE", JNull)) && !Truthy(Get(m, "title", JNull)) ==>
                    t == Get(m, "description", JStr("")))
  {
    match file
    case Loaded(JObj(meta)) =>
      if Truthy(Get(meta, "TITLE", JNull)) then meta["TITLE"]
      else if Truthy(Get(meta, "title", JNull)) then meta["title"]
      else Get(meta, "description", JStr(""))
    case _ => JStr("")
  }

  /** A saved folder shows its upper-cased title; one saved with an empty
      title shows "". */
  lemma SavedTitle(form: FolderForm, existing: MetaFile, today: string)
    ensures FolderTitle(Loaded(JObj(FolderRecord(form, existing, today)))) == JStr(Upper(form.title))
  {
    var r := FolderRecord(form, existing, today);
    if Upper(form.title) == "" {
      assert !Truthy(r["TITLE"]);
      assert "title" !in r && "description" !in r;
    }
  }

  /** A legacy record, whose title is stored only under the lower-case
      key, shows that title as written in the tree, while reading it into
      the form upper-cases it. */
  lemma LegacyTitleShown(m: Meta, today: string)
    requires "TITLE" !in m && "title" in m && m["title"].JStr? && m["title"].s != ""
    requires !LegacyFails(m, "description")
    ensures FolderTitle(Loaded(JObj(m))) == m["title"]
    ensures Backfilled(m, today).Some?
    ensures Backfilled(m, today).value["TITLE"] == JStr(Upper(m["title"].s))
  {
  }

  /** A folder without a usable metadata file shows an empty title, like
      the default record written for it. */
  lemma DefaultTitle(today: string)
    ensures FolderTitle(Absent) == JStr("") && FolderTitle(Unreadable) == JStr("")
    ensures FolderTitle(Loaded(JObj(DefaultMeta(today)))) == JStr("")
  {
    var d := DefaultMeta(today);
    assert !Truthy(d["TITLE"]);
    assert "title" !in d && "description" !in d;
  }
}
