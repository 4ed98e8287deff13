/** What the search index stores of a page: its frontmatter fields, its text and its vector. */
module Projection {
  import opened Frontmatter
  import opened Seqs
  import opened Text
  import opened Wrappers

  const MAX_EMBED_CHARS: nat := 8000

  datatype Meta = Meta(
    id: Option<string>, title: Option<string>, kind: Option<string>, tags: seq<string>, sourceIds: seq<string>)

  const EMPTY := Meta(None, None, None, [], [])

  function InlineId(piece: string): seq<string> {
    IdOf(Trim(piece))
  }

  /** A bracketed list on one line; anything else reads as no list. */
  function InlineList(value: string): seq<string> {
    var s := Trim(value);
    if s != "" && s[0] == '[' then FlatMap(InlineId, ListPieces(s)) else []
  }

  /** The value a line gives to each key, if it begins with that key. */
  datatype Fields = Fields(
    id: Option<string>, title: Option<string>, kind: Option<string>, tags: Option<string>, ids: Option<string>)

  function FieldsBy(line: string, id: string, title: string, kind: string, tags: string, ids: string): Fields {
    Fields(Field(line, id), Field(line, title), Field(line, kind), Field(line, tags), Field(line, ids))
  }

  function FieldsOf(line: string): Fields {
    FieldsBy(line, "id:", "title:", "kind:", "tags:", KEY)
  }

  /** The first key that matched sets its field, over any earlier value. */
  function SetField(m: Meta, f: Fields): Meta {
    if f.id.Some? then m.(id := Some(Unquote(f.id.value)))
    else if f.title.Some? then m.(title := Some(Unquote(f.title.value)))
    else if f.kind.Some? then m.(kind := Some(Unquote(f.kind.value)))
    else if f.tags.Some? then m.(tags := InlineList(f.tags.value))
    else if f.ids.Some? then m.(sourceIds := InlineList(f.ids.value))
    else m
  }

  /** One frontmatter line. */
  function ReadLine(m: Meta, line: string): Meta {
    SetField(m, FieldsOf(line))
  }

  function MetaOf(content: string): Meta {
    match Frame(content)
    case None => EMPTY
    case Some(p) => FoldLeft(ReadLine, EMPTY, Lines(p.fm))
  }

  /** The text after the frontmatter, or the whole page when it has none. */
  function BodyOf(content: string): string {
    match Frame(content)
    case None => content
    case Some(p) => TrimStart(p.rest[|CLOSE|..])
  }

  method ParseLines(lines: seq<string>) returns (m: Meta)
    ensures m == FoldLeft(ReadLine, EMPTY, lines)
  {
    m := EMPTY;
    for i := 0 to |lines|
      invariant m == FoldLeft(ReadLine, EMPTY, lines[..i])
    {
      FoldStep(ReadLine, EMPTY, lines, i);
      m := ReadLine(m, lines[i]);
    }
    assert lines[..|lines|] == lines;
  }

  method ParseFrontmatter(content: string) returns (m: Meta)
    ensures m == MetaOf(content)
  {
    match Frame(content) {
      case None => m := EMPTY;
      case Some(p) => m := ParseLines(Lines(p.fm));
    }
  }

  // ---------- rows ----------

  type Vector = seq<real>

  datatype Row = Row(pageId: string, kind: string, title: string, content: string,
                     tags: seq<string>, sourceIds: seq<string>, vector: Vector)

  function EmbedText(title: string, body: string): string {
    var s := title + "\n\n" + body;
    if |s| <= MAX_EMBED_CHARS then s else s[..MAX_EMBED_CHARS]
  }

  /** The row of a page; the embedder is any function of the text it is given. */
  function Project(embed: string -> Vector, path: string, content: string): Row {
    var m := MetaOf(content);
    var title := m.title.UnwrapOr(path);
    Row(m.id.UnwrapOr(path), m.kind.UnwrapOr(""), title, content, m.tags, m.sourceIds,
        embed(EmbedText(title, BodyOf(content))))
  }

  // ---------- what each field holds ----------

  function KeyValue(key: string): string -> Option<string> {
    (line: string) => Field(line, key)
  }

  /** The value of the last line that begins with the key. */
  function LastField(lines: seq<string>, key: string): Option<string> {
    LastValue(KeyValue(key), lines)
  }

  function Unquoted(value: Option<string>): Option<string> {
    match value case None => None case Some(v) => Some(Unquote(v))
  }

  function Listed(value: Option<string>): seq<string> {
    match value case None => [] case Some(v) => InlineList(v)
  }

  /** No line begins with two keys that differ somewhere. */
  lemma OneKeyAtMost(line: string, a: string, b: string, i: nat)
    requires i < |a| && i < |b| && a[i] != b[i]
    ensures Field(line, a).None? || Field(line, b).None?
  {
    PrefixChar(TrimStart(line), a, i);
    PrefixChar(TrimStart(line), b, i);
  }

  /** The fields are made of these values. */
  predicate MadeOf(m: Meta, f: Fields) {
    && m.id == Unquoted(f.id) && m.title == Unquoted(f.title) && m.kind == Unquoted(f.kind)
    && m.tags == Listed(f.tags) && m.sourceIds == Listed(f.ids)
  }

  predicate AtMostOne(f: Fields) {
    && (f.id.Some? ==> f.title.None? && f.kind.None? && f.tags.None? && f.ids.None?)
    && (f.title.Some? ==> f.kind.None? && f.tags.None? && f.ids.None?)
    && (f.kind.Some? ==> f.tags.None? && f.ids.None?)
    && (f.tags.Some? ==> f.ids.None?)
  }

  function Later(before: Option<string>, value: Option<string>): Option<string> {
    if value.Some? then value else before
  }

  lemma SetOne(m: Meta, before: Fields, f: Fields)
    requires MadeOf(m, before) && AtMostOne(f)
    ensures MadeOf(SetField(m, f), Fields(Later(before.id, f.id), Later(before.title, f.title), Later(before.kind, f.kind),
                                          Later(before.tags, f.tags), Later(before.ids, f.ids)))
  {
  }

  lemma KeysExclude(line: string, id: string, title: string, kind: string, tags: string, ids: string)
    requires |id| > 1 && |title| > 1 && |kind| > 1 && |tags| > 1 && |ids| > 1
    requires id[0] != title[0] && id[0] != kind[0] && id[0] != tags[0] && id[0] != ids[0]
    requires title[0] != kind[0] && title[1] != tags[1] && title[0] != ids[0]
    requires kind[0] != tags[0] && kind[0] != ids[0] && tags[0] != ids[0]
    ensures AtMostOne(FieldsBy(line, id, title, kind, tags, ids))
  {
    OneKeyAtMost(line, id, title, 0);
    OneKeyAtMost(line, id, kind, 0);
    OneKeyAtMost(line, id, tags, 0);
    OneKeyAtMost(line, id, ids, 0);
    OneKeyAtMost(line, title, kind, 0);
    OneKeyAtMost(line, title, tags, 1);
    OneKeyAtMost(line, title, ids, 0);
    OneKeyAtMost(line, kind, tags, 0);
    OneKeyAtMost(line, kind, ids, 0);
    OneKeyAtMost(line, tags, ids, 0);
  }

  /** The last value of every key. */
  function LastFields(lines: seq<string>, id: string, title: string, kind: string, tags: string, ids: string): Fields {
    Fields(LastField(lines, id), LastField(lines, title), LastField(lines, kind),
           LastField(lines, tags), LastField(lines, ids))
  }

  lemma LastFieldsAppend(
      lines: seq<string>, line: string, id: string, title: string, kind: string, tags: string, ids: string)
    ensures var before, f := LastFields(lines, id, title, kind, tags, ids), FieldsBy(line, id, title, kind, tags, ids);
            LastFields(lines + [line], id, title, kind, tags, ids) ==
              Fields(Later(before.id, f.id), Later(before.title, f.title), Later(before.kind, f.kind),
                     Later(before.tags, f.tags), Later(before.ids, f.ids))
  {
    LastValueAppend(KeyValue(id), lines, line);
    LastValueAppend(KeyValue(title), lines, line);
    LastValueAppend(KeyValue(kind), lines, line);
    LastValueAppend(KeyValue(tags), lines, line);
    LastValueAppend(KeyValue(ids), lines, line);
  }

  lemma ReadOneMore(m: Meta, lines: seq<string>, line: string)
    requires MadeOf(m, LastFields(lines, "id:", "title:", "kind:", "tags:", "source_ids:"))
    ensures MadeOf(ReadLine(m, line), LastFields(lines + [line], "id:", "title:", "kind:", "tags:", "source_ids:"))
  {
    KeysExclude(line, "id:", "title:", "kind:", "tags:", "source_ids:");
    LastFieldsAppend(lines, line, "id:", "title:", "kind:", "tags:", "source_ids:");
    SetOne(m, LastFields(lines, "id:", "title:", "kind:", "tags:", "source_ids:"), FieldsOf(line));
  }

  lemma LinesAreRead(lines: seq<string>)
    ensures MadeOf(FoldLeft(ReadLine, EMPTY, lines), LastFields(lines, "id:", "title:", "kind:", "tags:", "source_ids:"))
  {
    var inv := (m: Meta, done: seq<string>) => MadeOf(m, LastFields(done, "id:", "title:", "kind:", "tags:", "source_ids:"));
    forall m, done, line | inv(m, done)
      ensures inv(ReadLine(m, line), done + [line])
    {
      ReadOneMore(m, done, line);
    }
    FoldKeeps(ReadLine, EMPTY, lines, |lines|, inv);
    assert lines[..|lines|] == lines;
  }

  /** A field is read exactly if some frontmatter line begins with its key, and it is then that of the
      last such line, out of its quotes; a page without frontmatter has none. */
  lemma FieldsAreRead(content: string)
    ensures Frame(content).None? ==> MetaOf(content) == Meta(None, None, None, [], [])
    ensures Frame(content).Some? ==>
              var lines, m := Lines(Frame(content).value.fm), MetaOf(content);
              && m.id == Unquoted(LastField(lines, "id:"))
              && m.title == Unquoted(LastField(lines, "title:"))
              && m.kind == Unquoted(LastField(lines, "kind:"))
              && m.tags == Listed(LastField(lines, "tags:"))
              && m.sourceIds == Listed(LastField(lines, "source_ids:"))
  {
    if Frame(content).Some? {
      LinesAreRead(Lines(Frame(content).value.fm));
    }
  }

  /** The row of a page: the path stands in for a missing id or title, and the embedder is given at
      most 8000 characters of the title, a blank line and the text after the frontmatter. */
  lemma RowIsRead(embed: string -> Vector, path: string, content: string)
    ensures var row := Project(embed, path, content);
            row.content == content &&
            match Frame(content)
            case None =>
              row == Row(path, "", path, content, [], [], embed(Take(path + "\n\n" + content, 8000)))
            case Some(p) =>
              var lines := Lines(p.fm);
              && row.pageId == Unquoted(LastField(lines, "id:")).UnwrapOr(path)
              && row.kind == Unquoted(LastField(lines, "kind:")).UnwrapOr("")
              && row.title == Unquoted(LastField(lines, "title:")).UnwrapOr(path)
              && row.tags == Listed(LastField(lines, "tags:"))
              && row.sourceIds == Listed(LastField(lines, "source_ids:"))
              && row.vector == embed(Take(row.title + "\n\n" + TrimStart(p.rest[|CLOSE|..]), 8000))
  {
    FieldsAreRead(content);
  }

  // ---------- a rewritten page changes one field ----------

  lemma FieldsIgnoreCr(line: string, id: string, title: string, kind: string, tags: string, ids: string)
    requires '\r' !in id && '\r' !in title && '\r' !in kind && '\r' !in tags && '\r' !in ids
    requires id != "" && title != "" && kind != "" && tags != "" && ids != ""
    ensures FieldsBy(StripCr(line), id, title, kind, tags, ids) == FieldsBy(line, id, title, kind, tags, ids)
  {
    FieldIgnoresCr(line, id);
    FieldIgnoresCr(line, title);
    FieldIgnoresCr(line, kind);
    FieldIgnoresCr(line, tags);
    FieldIgnoresCr(line, ids);
  }

  lemma OtherKey(line: string, key: string)
    requires IsIdsLine(line) && key != "" && key[0] != KEY[0]
    ensures Field(line, key).None?
  {
    var t := TrimStart(line);
    assert t[..|KEY|][0] == t[0];
    HeadDecides(t, key);
  }

  lemma IdsLineSetsIds(m: Meta, line: string)
    requires IsIdsLine(line)
    ensures ReadLine(m, line) == m.(sourceIds := InlineList(Field(line, KEY).value))
  {
    OtherKey(line, "id:");
    OtherKey(line, "title:");
    OtherKey(line, "kind:");
    OtherKey(line, "tags:");
  }

  /** A line that is a `source_ids` line wherever it is indented, and lists `ids`. */
  ghost predicate Lists(idsLine: string, ids: seq<string>) {
    forall lead | AllSpace(lead) ::
      IsIdsLine(lead + idsLine) && InlineList(Field(lead + idsLine, KEY).value) == ids
  }

  /** Lines other than `source_ids` lines change the same fields whatever the ids. */
  lemma OtherLineKeepsIds(m: Meta, line: string, ids: seq<string>)
    requires !IsIdsLine(line)
    ensures ReadLine(m.(sourceIds := ids), line) == ReadLine(m, line).(sourceIds := ids)
    ensures ReadLine(m, line).sourceIds == m.sourceIds
  {
  }

  lemma EmptyLineSetsNothing(m: Meta)
    ensures ReadLine(m, "") == m
  {
  }

  /** How a rewritten line acts, compared with the line it replaces. */
  lemma RewrittenLine(m: Meta, line: string, idsLine: string, ids: seq<string>)
    requires Lists(idsLine, ids)
    ensures ReadLine(m.(sourceIds := ids), RewriteLine(idsLine)(line)) == ReadLine(m, line).(sourceIds := ids)
    ensures IsIdsLine(line) ==>
              ReadLine(m, RewriteLine(idsLine)(line)) == ReadLine(m, line).(sourceIds := ids)
    ensures !IsIdsLine(line) ==> RewriteLine(idsLine)(line) == line
  {
    if IsIdsLine(line) {
      TrimStartSplits(line);
      var line' := RewriteLine(idsLine)(line);
      IdsLineSetsIds(m, line');
      IdsLineSetsIds(m.(sourceIds := ids), line');
      IdsLineSetsIds(m, line);
    } else {
      OtherLineKeepsIds(m, line, ids);
    }
  }

  lemma NewLinesFields(lines: seq<string>, idsLine: string, ids: seq<string>)
    requires Lists(idsLine, ids)
    ensures FoldLeft(ReadLine, EMPTY, NewLines(lines, idsLine)) ==
              FoldLeft(ReadLine, EMPTY, lines).(sourceIds := ids)
  {
    var g, put := RewriteLine(idsLine), (m: Meta) => m.(sourceIds := ids);
    forall m, line
      ensures ReadLine(put(m), g(line)) == put(ReadLine(m, line))
      ensures IsIdsLine(line) ==> ReadLine(m, g(line)) == put(ReadLine(m, line))
    {
      RewrittenLine(m, line, idsLine, ids);
    }
    FoldPuts(ReadLine, g, put, IsIdsLine, EMPTY, lines);
    if Count(IsIdsLine, lines) == 0 {
      FoldAppend(ReadLine, EMPTY, lines, idsLine);
      AppendEmpty(idsLine);
      assert AllSpace("");
      IdsLineSetsIds(FoldLeft(ReadLine, EMPTY, lines), idsLine);
    } else {
      AppendEmpty(Map(g, lines));
    }
  }

  lemma InlineReadsTheSame(pieces: seq<string>)
    ensures FlatMap(InlineId, pieces) == FlatMap(IdOf, pieces)
  {
    forall x: string
      ensures InlineId(x) == IdOf(x)
    {
      TrimTwice(x);
    }
    SameFlatMap(InlineId, IdOf, pieces);
  }

  lemma InlineListOf(value: string)
    requires value != "" && value[0] == '[' && !IsSpace(value[|value| - 1])
    ensures InlineList(value) == FlatMap(IdOf, ListPieces(value))
  {
    TrimIsIdentity(value);
    InlineReadsTheSame(ListPieces(value));
  }

  lemma IdsLineReads(lead: string, ids: seq<string>)
    requires AllSpace(lead) && ids != [] && forall id | id in ids :: Readable(id)
    ensures IsIdsLine(lead + IdsLine(ids)) && InlineList(Field(lead + IdsLine(ids), KEY).value) == Reread(ids)
  {
    IdsLineField(lead, ids);
    InlineListOf(Bracketed(ListOf(ids)));
    QuotedShape(ids);
    SpacesAreLost(Map(Quote, ids));
  }

  lemma IdsLineLists(ids: seq<string>)
    requires ids != [] && forall id | id in ids :: Readable(id)
    ensures Lists(IdsLine(ids), Reread(ids))
  {
    forall lead | AllSpace(lead)
      ensures IsIdsLine(lead + IdsLine(ids)) && InlineList(Field(lead + IdsLine(ids), KEY).value) == Reread(ids)
    {
      IdsLineReads(lead, ids);
    }
  }

  /** The index's reader agrees with the removal's writer: of a rewritten page it stores the same
      fields and body as before, and as source ids just the ones written, as they read back from
      their quotes; several `source_ids` lines do not multiply them. */
  lemma IndexReadsRewrite(content: string, ids: seq<string>)
    requires Frame(content).Some? && ids != [] && forall id | id in ids :: Readable(id)
    ensures MetaOf(Rewrite(content, ids)) == MetaOf(content).(sourceIds := Reread(ids))
    ensures BodyOf(Rewrite(content, ids)) == BodyOf(content)
  {
    var p := Frame(content).value;
    var ls := NewLines(Lines(p.fm), IdsLine(ids));
    RewrittenLines(content, ids);
    IdsLineLists(ids);
    NewLinesFields(Lines(p.fm), IdsLine(ids), Reread(ids));
    LinesOfJoin(ls);
    RelinedFields(ls);
  }

  lemma RelinedFields(lines: seq<string>)
    ensures FoldLeft(ReadLine, EMPTY, Relined(lines)) == FoldLeft(ReadLine, EMPTY, lines)
  {
    forall m
      ensures ReadLine(m, "") == m
    {
      EmptyLineSetsNothing(m);
    }
    forall m, line
      ensures ReadLine(m, StripCr(line)) == ReadLine(m, line)
    {
      FieldsIgnoreCr(line, "id:", "title:", "kind:", "tags:", KEY);
    }
    RelinedFoldsTheSame(ReadLine, EMPTY, lines);
  }
}
