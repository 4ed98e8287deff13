/** The `source_ids` line of a page's frontmatter: reading it, rewriting it, and how the two fit. */
module Frontmatter {
  import opened Seqs
  import opened Text
  import opened Wrappers

  const OPEN := "---"
  const CLOSE := "\n---"
  const KEY := "source_ids:"

  /** A page cut around its frontmatter: `lead`, the opening fence, `fm`, and `rest`, which
      begins with the closing fence. */
  datatype Page = Page(lead: string, fm: string, rest: string)

  /** What stands between `open`, at the head of `s`, and the first `close`; and all from there on. */
  function Cut(s: string, open: string, close: string): (r: Option<(string, string)>)
    requires close != ""
    ensures r.Some? ==> |r.value.1| >= |close|
  {
    match StripPrefix(s, open)
    case None => None
    case Some(after) =>
      match FindSub(after, close)
      case None => None
      case Some(end) => Some((after[..end], after[end..]))
  }

  function Frame(content: string): (r: Option<Page>)
    ensures r.Some? ==> |r.value.rest| >= |CLOSE|
  {
    match Cut(TrimStart(content), OPEN, CLOSE)
    case None => None
    case Some((fm, rest)) => Some(Page(Lead(content), fm, rest))
  }

  // ---------- reading ----------

  function Unquote(x: string): string {
    TrimMatches(TrimMatches(Trim(x), '"'), '\'')
  }

  /** The id in one piece of a list; an empty one is dropped. */
  function IdOf(piece: string): seq<string> {
    if Unquote(piece) == "" then [] else [Unquote(piece)]
  }

  function ListPieces(value: string): seq<string> {
    Split(TrimEndMatches(TrimStartMatches(value, '['), ']'), ',')
  }

  predicate IsIdsLine(line: string) {
    StartsWith(TrimStart(line), KEY)
  }

  function IdsOfLine(line: string): seq<string> {
    match Field(line, KEY)
    case None => []
    case Some(value) => FlatMap(IdOf, ListPieces(value))
  }

  /** Every `source_ids` line contributes, in order. */
  function ExtractIds(content: string): seq<string> {
    match Frame(content)
    case None => []
    case Some(p) => FlatMap(IdsOfLine, Lines(p.fm))
  }

  method CollectIds(pieces: seq<string>) returns (out: seq<string>)
    ensures out == FlatMap(IdOf, pieces)
  {
    out := [];
    for j := 0 to |pieces|
      invariant out == FlatMap(IdOf, pieces[..j])
    {
      FlatMapStep(IdOf, pieces, j);
      var x := Unquote(pieces[j]);
      if x != "" {
        out := out + [x];
      }
    }
    assert pieces[..|pieces|] == pieces;
  }

  method ReadIds(lines: seq<string>) returns (out: seq<string>)
    ensures out == FlatMap(IdsOfLine, lines)
  {
    out := [];
    for i := 0 to |lines|
      invariant out == FlatMap(IdsOfLine, lines[..i])
    {
      FlatMapStep(IdsOfLine, lines, i);
      match Field(lines[i], KEY) {
        case None =>
        case Some(value) =>
          var ids := CollectIds(ListPieces(value));
          out := out + ids;
      }
    }
    assert lines[..|lines|] == lines;
  }

  method ExtractSourceIds(content: string) returns (out: seq<string>)
    ensures out == ExtractIds(content)
  {
    match Frame(content) {
      case None => out := [];
      case Some(page) => out := ReadIds(Lines(page.fm));
    }
  }

  // ---------- rewriting ----------

  function Quote(id: string): string {
    "\"" + id + "\""
  }

  function ListOf(ids: seq<string>): string {
    Join(Map(Quote, ids), ", ")
  }

  function Bracketed(list: string): string {
    "[" + list + "]"
  }

  function LineWith(list: string): string {
    KEY + Space(Bracketed(list))
  }

  function IdsLine(ids: seq<string>): string {
    LineWith(ListOf(ids))
  }

  function RewriteLine(idsLine: string): string -> string {
    (line: string) => if IsIdsLine(line) then Lead(line) + idsLine else line
  }

  /** Every `source_ids` line rewritten in place, or one added at the end. */
  function NewLines(lines: seq<string>, idsLine: string): seq<string> {
    Map(RewriteLine(idsLine), lines) + if Count(IsIdsLine, lines) == 0 then [idsLine] else []
  }

  function Reframe(p: Page): string {
    p.lead + OPEN + p.fm + p.rest
  }

  function Rewrite(content: string, ids: seq<string>): string {
    match Frame(content)
    case None => content
    case Some(p) => Reframe(p.(fm := Join(NewLines(Lines(p.fm), IdsLine(ids)), "\n")))
  }

  method RewriteAll(lines: seq<string>, idsLine: string) returns (newLines: seq<string>)
    ensures newLines == NewLines(lines, idsLine)
  {
    var replaced := false;
    newLines := [];
    for i := 0 to |lines|
      invariant newLines == Map(RewriteLine(idsLine), lines[..i])
      invariant replaced <==> Count(IsIdsLine, lines[..i]) > 0
    {
      MapStep(RewriteLine(idsLine), lines, i);
      CountStep(IsIdsLine, lines, i);
      if IsIdsLine(lines[i]) {
        newLines := newLines + [Lead(lines[i]) + idsLine];
        replaced := true;
      } else {
        newLines := newLines + [lines[i]];
      }
    }
    assert lines[..|lines|] == lines;
    if !replaced {
      newLines := newLines + [idsLine];
    }
  }

  method RemoveSourceIdFromFrontmatter(content: string, remaining: seq<string>) returns (r: string)
    ensures r == Rewrite(content, remaining)
  {
    match Frame(content) {
      case None => return content;
      case Some(page) =>
        var newLines := RewriteAll(Lines(page.fm), IdsLine(remaining));
        r := page.lead + OPEN + Join(newLines, "\n") + page.rest;
    }
  }

  // ---------- the closing fence stays put ----------

  predicate AllOneLine(ls: seq<string>) {
    forall l | l in ls :: OneLine(l)
  }

  /** No line but the first opens a fence. */
  predicate Unfenced(lines: seq<string>) {
    forall i | 0 < i < |lines| :: !StartsWith(lines[i], OPEN)
  }

  lemma JoinCut(lines: seq<string>)
    requires |lines| > 1
    ensures Join(lines, "\n") == lines[0] + "\n" + Join(lines[1..], "\n")
  {
  }

  lemma JoinOpensWithFirst(first: string, rest: string, p: string)
    requires StartsWith(first + rest, p) && StartsWith(rest, "\n") && OneLine(p)
    ensures StartsWith(first, p)
  {
    var s := first + rest;
    assert rest[..1][0] == rest[0] == s[|first|];
    forall i | 0 <= i < |p|
      ensures p[i] == s[i]
    {
      assert s[..|p|][i] == s[i];
    }
    assert |p| <= |first| ==> s[..|p|] == first[..|p|];
  }

  lemma LineHeadsText(lines: seq<string>, rest: string)
    requires lines != [] && StartsWith(rest, "\n")
    ensures exists tail :: Join(lines, "\n") + rest == lines[0] + tail && StartsWith(tail, "\n")
  {
    if |lines| == 1 {
      assert Join(lines, "\n") + rest == lines[0] + rest;
    } else {
      JoinCut(lines);
      var tail := "\n" + Join(lines[1..], "\n") + rest;
      assert Join(lines, "\n") + rest == lines[0] + tail;
      assert tail[..1] == "\n";
    }
  }

  lemma NoBreakInside(a: string, b: string, p: string, k: nat)
    requires OneLine(a) && k < |a|
    ensures !OccursAt(a + b, "\n" + p, k)
  {
    assert k + 1 + |p| <= |a + b| ==> (a + b)[k..k + 1 + |p|][0] == a[k];
  }

  lemma OccursAfter(a: string, b: string, p: string, k: nat)
    requires k >= |a| && OccursAt(a + b, p, k)
    ensures OccursAt(b, p, k - |a|)
  {
    assert b[k - |a|..k - |a| + |p|] == (a + b)[k..k + |p|];
  }

  lemma OccursPastBreak(b: string, p: string)
    requires OccursAt("\n" + b, "\n" + p, 0)
    ensures StartsWith(b, p)
  {
    assert ("\n" + b)[0..1 + |p|] == "\n" + b[..|p|];
    assert ("\n" + p)[1..] == p && ("\n" + b[..|p|])[1..] == b[..|p|];
  }

  /** Joined lines none of which, past the first, opens a fence hold no closing fence. */
  lemma {:induction false} NoFenceInside(lines: seq<string>, rest: string, k: nat)
    requires AllOneLine(lines) && Unfenced(lines)
    requires StartsWith(rest, "\n") && k < |Join(lines, "\n")|
    ensures !OccursAt(Join(lines, "\n") + rest, "\n" + OPEN, k)
  {
    var s, first := Join(lines, "\n") + rest, lines[0];
    if |lines| == 1 {
      NoBreakInside(first, rest, OPEN, k);
    } else {
      var tail := Join(lines[1..], "\n") + rest;
      JoinCut(lines);
      assert s == first + ("\n" + tail);
      if k < |first| {
        NoBreakInside(first, "\n" + tail, OPEN, k);
      } else if OccursAt(s, "\n" + OPEN, k) {
        OccursAfter(first, "\n" + tail, "\n" + OPEN, k);
        if k == |first| {
          OccursPastBreak(tail, OPEN);
          LineHeadsText(lines[1..], rest);
          var t :| tail == lines[1] + t && StartsWith(t, "\n");
          JoinOpensWithFirst(lines[1], t, OPEN);
        } else {
          OccursAfter("\n", tail, "\n" + OPEN, k - |first|);
          NoFenceInside(lines[1..], rest, k - |first| - 1);
        }
      }
    }
  }

  lemma FenceFound(lines: seq<string>, rest: string)
    requires AllOneLine(lines) && Unfenced(lines) && StartsWith(rest, CLOSE)
    ensures FindSub(Join(lines, "\n") + rest, CLOSE) == Some(|Join(lines, "\n")|)
  {
    var fm := Join(lines, "\n");
    assert CLOSE == "\n" + OPEN && rest[..1] == rest[..|CLOSE|][..1] == "\n";
    assert (fm + rest)[|fm|..|fm| + |CLOSE|] == rest[..|CLOSE|];
    assert OccursAt(fm + rest, CLOSE, |fm|);
    forall k: nat | k < |fm|
      ensures !OccursAt(fm + rest, CLOSE, k)
    {
      NoFenceInside(lines, rest, k);
    }
  }

  lemma PartsOfCut(s: string, open: string, close: string)
    requires close != "" && Cut(s, open, close).Some?
    ensures var (fm, rest) := Cut(s, open, close).value;
            s == open + (fm + rest) && StartsWith(rest, close) && FindSub(fm + rest, close) == Some(|fm|)
  {
    var (fm, rest) := Cut(s, open, close).value;
    var after := s[|open|..];
    assert s == open + after && after == fm + rest;
    TakeOfDrop(after, |fm|, |close|);
  }

  lemma CutOfParts(open: string, close: string, fm: string, rest: string)
    requires close != "" && FindSub(fm + rest, close) == Some(|fm|)
    ensures Cut(open + (fm + rest), open, close) == Some((fm, rest))
  {
    var after := fm + rest;
    assert (open + after)[..|open|] == open && (open + after)[|open|..] == after;
    assert after[..|fm|] == fm && after[|fm|..] == rest;
  }

  /** Framing loses nothing: the parts, put back together, are the page. */
  lemma FrameParts(content: string)
    requires Frame(content).Some?
    ensures var p := Frame(content).value;
            && content == Reframe(p) && AllSpace(p.lead) && StartsWith(p.rest, CLOSE)
            && FindSub(p.fm + p.rest, CLOSE) == Some(|p.fm|)
  {
    var p := Frame(content).value;
    TrimStartSplits(content);
    PartsOfCut(TrimStart(content), OPEN, CLOSE);
    AppendNests(p.lead, OPEN, p.fm, p.rest);
  }

  lemma FrameLines(p: Page)
    requires FindSub(p.fm + p.rest, CLOSE) == Some(|p.fm|)
    ensures AllOneLine(Lines(p.fm)) && Unfenced(Lines(p.fm))
  {
    var lines := Lines(p.fm);
    LinesAreOneLine(p.fm);
    forall i | 0 < i < |lines|
      ensures !StartsWith(lines[i], OPEN)
    {
      if StartsWith(lines[i], OPEN) {
        LineShowsInText(p.fm, i, OPEN);
        var k :| OccursAt(p.fm, "\n" + OPEN, k);
        assert (p.fm + p.rest)[k..k + |CLOSE|] == p.fm[k..k + |CLOSE|];
        assert OccursAt(p.fm + p.rest, CLOSE, k);
      }
    }
  }

  lemma TrimStartOf(lead: string, t: string)
    requires AllSpace(lead) && t != "" && !IsSpace(t[0])
    ensures TrimStart(lead + t) == t && Lead(lead + t) == lead
  {
    TrimStartOver(lead, t);
  }

  lemma FrameOfReframe(p: Page)
    requires AllSpace(p.lead) && FindSub(p.fm + p.rest, CLOSE) == Some(|p.fm|)
    ensures Frame(Reframe(p)) == Some(p)
  {
    var t := OPEN + (p.fm + p.rest);
    assert t[0] == '-';
    AppendNests(p.lead, OPEN, p.fm, p.rest);
    TrimStartOf(p.lead, t);
    CutOfParts(OPEN, CLOSE, p.fm, p.rest);
  }

  lemma HeadDecides(s: string, p: string)
    requires s != "" && p != "" && s[0] != p[0]
    ensures !StartsWith(s, p)
  {
    assert |p| <= |s| ==> s[..|p|][0] == s[0];
  }

  lemma LeadOpensNoFence(lead: string, line: string)
    requires AllSpace(lead) && line != "" && line[0] == KEY[0]
    ensures !StartsWith(lead + line, OPEN)
  {
    assert lead != "" ==> lead[0] in lead;
    assert KEY[0] == 's' && OPEN[0] == '-';
    HeadDecides(lead + line, OPEN);
  }

  lemma NewLinesKeepShape(lines: seq<string>, idsLine: string)
    requires AllOneLine(lines) && Unfenced(lines)
    requires OneLine(idsLine) && idsLine != "" && idsLine[0] == KEY[0]
    ensures AllOneLine(NewLines(lines, idsLine)) && Unfenced(NewLines(lines, idsLine))
  {
    LeadOpensNoFence("", idsLine);
    assert "" + idsLine == idsLine;
    forall i | 0 <= i < |lines|
      ensures OneLine(RewriteLine(idsLine)(lines[i]))
      ensures i > 0 ==> !StartsWith(RewriteLine(idsLine)(lines[i]), OPEN)
    {
      assert lines[i] in lines;
      TrimStartSplits(lines[i]);
      assert forall c | c in Lead(lines[i]) :: c in lines[i];
      LeadOpensNoFence(Lead(lines[i]), idsLine);
    }
  }

  lemma IdsLineShape(ids: seq<string>)
    requires AllOneLine(ids)
    ensures OneLine(IdsLine(ids)) && IdsLine(ids) != "" && IdsLine(ids)[0] == KEY[0]
  {
    forall q | q in Map(Quote, ids)
      ensures OneLine(q)
    {
      var i :| 0 <= i < |ids| && q == Quote(ids[i]);
      assert ids[i] in ids;
    }
    JoinLacks(Map(Quote, ids), ", ", '\n');
  }

  /** After the rewrite the closing fence is found right after the new lines: what comes before
      the frontmatter, the fences and everything after them are unchanged. */
  lemma RewriteKeepsTheRest(content: string, ids: seq<string>)
    requires Frame(content).Some? && AllOneLine(ids)
    ensures var p := Frame(content).value;
            Frame(Rewrite(content, ids)) == Some(p.(fm := Join(NewLines(Lines(p.fm), IdsLine(ids)), "\n")))
  {
    var p := Frame(content).value;
    FrameParts(content);
    FrameLines(p);
    IdsLineShape(ids);
    NewLinesKeepShape(Lines(p.fm), IdsLine(ids));
    FenceFound(NewLines(Lines(p.fm), IdsLine(ids)), p.rest);
    FrameOfReframe(p.(fm := Join(NewLines(Lines(p.fm), IdsLine(ids)), "\n")));
  }

  // ---------- reading back what was written ----------

  /** An id that quoting does not protect: it has a double quote at an end. */
  predicate QuoteAtEnd(id: string) {
    id != "" && (id[0] == '"' || id[|id| - 1] == '"')
  }

  /** What every id read from a page satisfies. */
  predicate Readable(id: string) {
    && id != "" && ',' !in id && OneLine(id)
    && id[0] != '\'' && id[|id| - 1] != '\''
  }

  lemma UnquoteShrinks(x: string)
    ensures forall c | c in Unquote(x) :: c in x
    ensures var u := Unquote(x); u != "" ==> u[0] != '\'' && u[|u| - 1] != '\''
  {
    TrimShrinks(x);
    TrimMatchesShrinks(Trim(x), '"');
    TrimMatchesShrinks(TrimMatches(Trim(x), '"'), '\'');
  }

  lemma FieldIsOneLine(line: string, key: string)
    requires OneLine(line) && Field(line, key).Some?
    ensures OneLine(Field(line, key).value)
  {
    var u := TrimStart(line);
    assert OneLine(u) && OneLine(u[|key|..]);
    TrimShrinks(u[|key|..]);
  }

  lemma ListPiecesShape(value: string)
    requires OneLine(value)
    ensures forall piece | piece in ListPieces(value) :: ',' !in piece && OneLine(piece)
  {
    TrimStartMatchesSplits(value, '[');
    var inner := TrimStartMatches(value, '[');
    assert OneLine(inner);
    TrimEndMatchesSplits(inner, ']');
    assert OneLine(TrimEndMatches(inner, ']'));
    SplitPieces(TrimEndMatches(inner, ']'), ',');
  }

  lemma {:induction false} PiecesAreReadable(pieces: seq<string>)
    requires forall piece | piece in pieces :: ',' !in piece && OneLine(piece)
    ensures forall id | id in FlatMap(IdOf, pieces) :: Readable(id)
  {
    if pieces != [] {
      assert pieces[0] in pieces;
      UnquoteShrinks(pieces[0]);
      PiecesAreReadable(pieces[1..]);
    }
  }

  lemma IdsOfLineAreReadable(line: string)
    requires OneLine(line)
    ensures forall id | id in IdsOfLine(line) :: Readable(id)
  {
    if Field(line, KEY).Some? {
      FieldIsOneLine(line, KEY);
      ListPiecesShape(Field(line, KEY).value);
      PiecesAreReadable(ListPieces(Field(line, KEY).value));
    }
  }

  lemma {:induction false} IdsOfLinesAreReadable(lines: seq<string>)
    requires forall line | line in lines :: OneLine(line)
    ensures forall id | id in FlatMap(IdsOfLine, lines) :: Readable(id)
  {
    if lines != [] {
      assert lines[0] in lines;
      IdsOfLineAreReadable(lines[0]);
      IdsOfLinesAreReadable(lines[1..]);
    }
  }

  lemma ExtractedIdsAreReadable(content: string)
    ensures forall id | id in ExtractIds(content) :: Readable(id)
  {
    if Frame(content).Some? {
      LinesAreOneLine(Frame(content).value.fm);
      IdsOfLinesAreReadable(Lines(Frame(content).value.fm));
    }
  }

  /** The ids as they read back from one rewritten line. */
  function Reread(ids: seq<string>): seq<string> {
    FlatMap(IdOf, Map(Quote, ids))
  }

  /** An id without the double and then the single quotes at its ends. */
  function Bare(id: string): string {
    TrimMatches(TrimMatches(id, '"'), '\'')
  }

  lemma QuotedReadsBare(id: string)
    ensures Unquote(Quote(id)) == Bare(id)
  {
    TrimIsIdentity(Quote(id));
    WrappingComesOff(id, '"');
  }

  lemma BareLength(id: string)
    requires Readable(id)
    ensures |Bare(id)| <= |id|
    ensures |Bare(id)| == |id| <==> Bare(id) == id
    ensures Bare(id) == id <==> !QuoteAtEnd(id)
  {
    TrimMatchesLength(id, '"');
    TrimMatchesLength(TrimMatches(id, '"'), '\'');
    TrimMatchesLength(id, '\'');
  }

  lemma RereadOne(id: string)
    requires Readable(id)
    ensures |Unquote(Quote(id))| <= |id|
    ensures Unquote(Quote(id)) == id <==> !QuoteAtEnd(id)
    ensures |Unquote(Quote(id))| == |id| <==> !QuoteAtEnd(id)
  {
    QuotedReadsBare(id);
    BareLength(id);
  }

  /** What reads back from quotes: the written ids, bare, those that vanish left out. */
  lemma {:induction false} RereadMembers(ids: seq<string>, x: string)
    ensures x in Reread(ids) <==> x != "" && exists id :: id in ids && Bare(id) == x
  {
    if ids != [] {
      QuotedReadsBare(ids[0]);
      MapHead(Quote, ids);
      TailAppend([Quote(ids[0])], Map(Quote, ids[1..]));
      AppendEmpty(Map(Quote, ids[1..]));
      RereadMembers(ids[1..], x);
      HeadTail(ids);
    }
  }

  function TotalLength(ids: seq<string>): nat {
    if ids == [] then 0 else |ids[0]| + TotalLength(ids[1..])
  }

  lemma {:induction false} RereadAll(ids: seq<string>)
    requires forall id | id in ids :: Readable(id)
    ensures (forall id | id in ids :: !QuoteAtEnd(id)) ==> Reread(ids) == ids
    ensures TotalLength(Reread(ids)) <= TotalLength(ids)
    ensures (exists id | id in ids :: QuoteAtEnd(id)) ==> TotalLength(Reread(ids)) < TotalLength(ids)
  {
    if ids != [] {
      HeadTail(ids);
      RereadOne(ids[0]);
      RereadAll(ids[1..]);
      assert Map(Quote, ids)[1..] == Map(Quote, ids[1..]);
      AppendEmpty(Reread(ids[1..]));
      TailAppend([Unquote(Quote(ids[0]))], Reread(ids[1..]));
    }
  }

  // ---------- one rewritten line ----------

  lemma SpaceIsLost(q: string)
    ensures IdOf(Space(q)) == IdOf(q)
  {
    SpaceIsTrimmed(q);
    assert Unquote(Space(q)) == Unquote(q);
  }

  lemma SpacesAreLost(qs: seq<string>)
    requires qs != [] && forall q | q in qs :: ',' !in q
    ensures FlatMap(IdOf, Split(Join(qs, ", "), ',')) == FlatMap(IdOf, qs)
  {
    SplitSpacedJoin(qs);
    forall q: string
      ensures IdOf(Space(q)) == IdOf(q)
    {
      SpaceIsLost(q);
    }
    FlatMapOfMap(IdOf, Space, IdOf, qs[1..]);
    TailAppend([qs[0]], Map(Space, qs[1..]));
    AppendEmpty(Map(Space, qs[1..]));
  }

  lemma ListEnds(qs: seq<string>, c: char)
    requires qs != [] && forall q | q in qs :: q != "" && q[0] == c && q[|q| - 1] == c
    ensures var s := Join(qs, ", "); s != "" && s[0] == c && s[|s| - 1] == c
    decreases |qs|
  {
    assert qs[0] in qs;
    if |qs| > 1 {
      ListEnds(qs[1..], c);
    }
  }

  lemma BracketsComeOff(list: string)
    requires list != "" && list[0] != '[' && list[|list| - 1] != ']'
    ensures TrimEndMatches(TrimStartMatches(Bracketed(list), '['), ']') == list
  {
    AppendAssociates("[", list, "]");
    TailAppend("[", list + "]");
    AppendEmpty(list + "]");
    assert "["[1..] == "";
    InitAppend(list, "]");
    AppendEmpty(list);
    assert "]"[..0] == "";
  }

  lemma NewLineField(lead: string, key: string, value: string)
    requires AllSpace(lead) && key != "" && !IsSpace(key[0])
    requires value != "" && !IsSpace(value[0]) && !IsSpace(value[|value| - 1])
    ensures Field(lead + (key + Space(value)), key) == Some(value)
  {
    FieldOf(lead, key, Space(value));
    SpaceTrimmed(value);
  }

  predicate WrappedIn(q: string, c: char) {
    ',' !in q && q != "" && q[0] == c && q[|q| - 1] == c
  }

  lemma QuotedShape(ids: seq<string>)
    requires forall id | id in ids :: Readable(id)
    ensures forall q | q in Map(Quote, ids) :: WrappedIn(q, '"')
  {
    forall q | q in Map(Quote, ids)
      ensures WrappedIn(q, '"')
    {
      var i :| 0 <= i < |ids| && q == Quote(ids[i]);
      assert Readable(ids[i]);
    }
  }

  /** A line listing wrapped ids, whatever its indent, is a `source_ids` line holding the list. */
  lemma ListLineField(lead: string, qs: seq<string>, c: char)
    requires AllSpace(lead) && qs != [] && forall q | q in qs :: WrappedIn(q, c)
    requires c != '[' && c != ']'
    ensures var list := Join(qs, ", ");
            && Field(lead + LineWith(list), KEY) == Some(Bracketed(list))
            && ListPieces(Bracketed(list)) == Split(list, ',')
  {
    ListEnds(qs, c);
    NewLineField(lead, KEY, Bracketed(Join(qs, ", ")));
    BracketsComeOff(Join(qs, ", "));
  }

  /** It reads as what its pieces read as. */
  lemma IdsOfListLine(lead: string, qs: seq<string>, c: char)
    requires AllSpace(lead) && qs != [] && forall q | q in qs :: WrappedIn(q, c)
    requires c != '[' && c != ']'
    ensures IdsOfLine(lead + LineWith(Join(qs, ", "))) == FlatMap(IdOf, qs)
  {
    ListLineField(lead, qs, c);
    SpacesAreLost(qs);
  }

  lemma IdsLineField(lead: string, ids: seq<string>)
    requires AllSpace(lead) && ids != [] && forall id | id in ids :: Readable(id)
    ensures IsIdsLine(lead + IdsLine(ids))
    ensures Field(lead + IdsLine(ids), KEY) == Some(Bracketed(ListOf(ids)))
    ensures ListPieces(Bracketed(ListOf(ids))) == Split(ListOf(ids), ',')
  {
    QuotedShape(ids);
    ListLineField(lead, Map(Quote, ids), '"');
  }

  lemma IdsOfNewLine(lead: string, ids: seq<string>)
    requires AllSpace(lead) && ids != [] && forall id | id in ids :: Readable(id)
    ensures IdsOfLine(lead + IdsLine(ids)) == Reread(ids)
  {
    QuotedShape(ids);
    IdsOfListLine(lead, Map(Quote, ids), '"');
  }

  lemma LineIdsIgnoreCr(line: string)
    ensures IdsOfLine(StripCr(line)) == IdsOfLine(line)
  {
    FieldIgnoresCr(line, KEY);
  }

  lemma OtherLinesHoldNone(line: string)
    requires !IsIdsLine(line)
    ensures IdsOfLine(line) == []
  {
  }

  /** How many `source_ids` lines the page has once rewritten. */
  function LineCount(lines: seq<string>): nat {
    if Count(IsIdsLine, lines) == 0 then 1 else Count(IsIdsLine, lines)
  }

  lemma NewLinesRead(lines: seq<string>, ids: seq<string>)
    requires ids != [] && forall id | id in ids :: Readable(id)
    ensures FlatMap(IdsOfLine, NewLines(lines, IdsLine(ids))) == Repeat(Reread(ids), LineCount(lines))
  {
    var g, x := RewriteLine(IdsLine(ids)), Reread(ids);
    forall line
      ensures IdsOfLine(g(line)) == if IsIdsLine(line) then x else []
    {
      TrimStartSplits(line);
      if IsIdsLine(line) {
        IdsOfNewLine(Lead(line), ids);
      } else {
        OtherLinesHoldNone(line);
      }
    }
    var h := (line: string) => if IsIdsLine(line) then x else [];
    FlatMapOfMap(IdsOfLine, g, h, lines);
    FlatMapRepeats(h, IsIdsLine, lines, x);
    if Count(IsIdsLine, lines) == 0 {
      FlatMapAppend(IdsOfLine, Map(g, lines), [IdsLine(ids)]);
      IdsOfNewLine("", ids);
      AppendEmpty(IdsLine(ids));
      AppendEmpty(x);
    } else {
      AppendEmpty(Map(g, lines));
    }
  }

  lemma ReadableIsOneLine(ids: seq<string>)
    requires forall id | id in ids :: Readable(id)
    ensures AllOneLine(ids)
  {
  }

  lemma RewrittenLines(content: string, ids: seq<string>)
    requires Frame(content).Some? && forall id | id in ids :: Readable(id)
    ensures var p := Frame(content).value; var ls := NewLines(Lines(p.fm), IdsLine(ids));
            AllOneLine(ls) && Frame(Rewrite(content, ids)) == Some(p.(fm := Join(ls, "\n")))
  {
    ReadableIsOneLine(ids);
    RewriteKeepsTheRest(content, ids);
    FrameParts(content);
    FrameLines(Frame(content).value);
    IdsLineShape(ids);
    NewLinesKeepShape(Lines(Frame(content).value.fm), IdsLine(ids));
  }

  /** What a rewritten page holds: on each of its `source_ids` lines, the given ids as they read
      back from their quotes. */
  lemma RewrittenIds(content: string, ids: seq<string>)
    requires Frame(content).Some? && ids != [] && forall id | id in ids :: Readable(id)
    ensures ExtractIds(Rewrite(content, ids)) ==
              Repeat(Reread(ids), LineCount(Lines(Frame(content).value.fm)))
  {
    var p := Frame(content).value;
    var ls := NewLines(Lines(p.fm), IdsLine(ids));
    RewrittenLines(content, ids);
    LinesOfJoin(ls);
    forall line
      ensures IdsOfLine(StripCr(line)) == IdsOfLine(line)
    {
      LineIdsIgnoreCr(line);
    }
    RelinedReadsTheSame(IdsOfLine, ls);
    NewLinesRead(Lines(p.fm), ids);
  }

  lemma {:induction false} TotalLengthAppend(a: seq<string>, b: seq<string>)
    ensures TotalLength(a + b) == TotalLength(a) + TotalLength(b)
  {
    if a == [] {
      AppendEmpty(b);
    } else {
      TailAppend(a, b);
      TotalLengthAppend(a[1..], b);
    }
  }

  lemma {:induction false} RepeatShorter(a: seq<string>, b: seq<string>, n: nat)
    requires TotalLength(a) < TotalLength(b)
    ensures n > 0 ==> TotalLength(Repeat(a, n)) < TotalLength(Repeat(b, n))
    ensures n == 0 ==> TotalLength(Repeat(a, n)) == TotalLength(Repeat(b, n))
  {
    if n > 0 {
      RepeatShorter(a, b, n - 1);
      TotalLengthAppend(a, Repeat(a, n - 1));
      TotalLengthAppend(b, Repeat(b, n - 1));
    }
  }

  /** The round trip, for ids read from a page as the removal passes them: reading a rewritten
      page gives them back, once for each `source_ids` line, exactly when none of them has a
      double quote at an end. */
  lemma RewriteRoundTrip(content: string, ids: seq<string>)
    requires Frame(content).Some? && ids != [] && forall id | id in ids :: Readable(id)
    ensures ExtractIds(Rewrite(content, ids)) == Repeat(ids, LineCount(Lines(Frame(content).value.fm)))
       <==> forall id | id in ids :: !QuoteAtEnd(id)
  {
    RewrittenIds(content, ids);
    RereadAll(ids);
    if exists id | id in ids :: QuoteAtEnd(id) {
      RepeatShorter(Reread(ids), ids, LineCount(Lines(Frame(content).value.fm)));
    }
  }

  // ---------- pages that hold given lines ----------

  const AFTER := "\n---\n"

  /** A page with these frontmatter lines and this body. */
  function PageOf(lines: seq<string>, body: string := ""): string {
    Reframe(Page("", Join(lines, "\n"), AFTER + body))
  }

  lemma PageOfReads(lines: seq<string>, body: string := "")
    requires AllOneLine(lines) && Unfenced(lines)
    ensures Frame(PageOf(lines, body)) == Some(Page("", Join(lines, "\n"), AFTER + body))
    ensures Lines(Join(lines, "\n")) == Relined(lines)
    ensures ExtractIds(PageOf(lines, body)) == FlatMap(IdsOfLine, lines)
  {
    assert (AFTER + body)[..|CLOSE|] == CLOSE;
    FenceFound(lines, AFTER + body);
    FrameOfReframe(Page("", Join(lines, "\n"), AFTER + body));
    LinesOfJoin(lines);
    forall line
      ensures IdsOfLine(StripCr(line)) == IdsOfLine(line)
    {
      LineIdsIgnoreCr(line);
    }
    RelinedReadsTheSame(IdsOfLine, lines);
  }

  function SingleQuote(id: string): string {
    "'" + id + "'"
  }

  /** Within single quotes any readable id can be written, those with double quotes included. */
  lemma SingleQuotesProtect(id: string)
    requires Readable(id)
    ensures IdOf(SingleQuote(id)) == [id]
  {
    TrimIsIdentity(SingleQuote(id));
    NothingToTrim(SingleQuote(id), '"');
    WrappingComesOff(id, '\'');
    NothingToTrim(id, '\'');
  }

  lemma {:induction false} SingleQuotedRead(ids: seq<string>)
    requires forall id | id in ids :: Readable(id)
    ensures FlatMap(IdOf, Map(SingleQuote, ids)) == ids
  {
    if ids != [] {
      SingleQuotesProtect(ids[0]);
      MapHead(SingleQuote, ids);
      TailAppend([SingleQuote(ids[0])], Map(SingleQuote, ids[1..]));
      AppendEmpty(Map(SingleQuote, ids[1..]));
      SingleQuotedRead(ids[1..]);
      HeadTail(ids);
    }
  }

  /** A page that lists the ids, each in single quotes. */
  function PageListing(ids: seq<string>): string {
    PageOf(["", LineWith(Join(Map(SingleQuote, ids), ", "))])
  }

  lemma SingleQuotedShape(ids: seq<string>)
    requires forall id | id in ids :: Readable(id)
    ensures forall q | q in Map(SingleQuote, ids) :: WrappedIn(q, '\'') && OneLine(q)
  {
    forall q | q in Map(SingleQuote, ids)
      ensures WrappedIn(q, '\'') && OneLine(q)
    {
      var i :| 0 <= i < |ids| && q == SingleQuote(ids[i]);
      assert Readable(ids[i]);
    }
  }

  lemma ListLineShape(list: string)
    requires OneLine(list)
    ensures OneLine(LineWith(list)) && !StartsWith(LineWith(list), OPEN)
  {
    assert LineWith(list)[0] == 's' && OPEN[0] == '-';
    HeadDecides(LineWith(list), OPEN);
  }

  lemma ListLine(ids: seq<string>)
    requires ids != [] && forall id | id in ids :: Readable(id)
    ensures var line := LineWith(Join(Map(SingleQuote, ids), ", "));
            OneLine(line) && !StartsWith(line, OPEN) && IdsOfLine(line) == ids
  {
    var qs := Map(SingleQuote, ids);
    SingleQuotedShape(ids);
    JoinLacks(qs, ", ", '\n');
    ListLineShape(Join(qs, ", "));
    AppendEmpty(LineWith(Join(qs, ", ")));
    IdsOfListLine("", qs, '\'');
    SingleQuotedRead(ids);
  }

  lemma TwoLines(line: string)
    ensures FlatMap(IdsOfLine, ["", line]) == IdsOfLine(line)
  {
    EmptyLineHoldsNone();
    FlatMapSecond(IdsOfLine, "", line);
  }

  lemma OneListPage(line: string)
    requires OneLine(line) && !StartsWith(line, OPEN)
    ensures ExtractIds(PageOf(["", line])) == IdsOfLine(line)
  {
    PageOfReads(["", line]);
    TwoLines(line);
  }

  /** Reading such a page gives the ids: every list of readable ids is the extraction of some page. */
  lemma PageListingReads(ids: seq<string>)
    requires ids != [] && forall id | id in ids :: Readable(id)
    ensures ExtractIds(PageListing(ids)) == ids
  {
    ListLine(ids);
    OneListPage(LineWith(Join(Map(SingleQuote, ids), ", ")));
  }

  lemma EmptyLineHoldsNone()
    ensures IdsOfLine("") == []
  {
  }

  lemma {:induction false} RepeatMembers(x: seq<string>, n: nat)
    ensures forall id :: id in Repeat(x, n) <==> n > 0 && id in x
  {
    if n > 0 {
      RepeatMembers(x, n - 1);
    }
  }

  /** A rewritten page cites just the ids that read back from their quotes. */
  lemma RewriteCites(content: string, ids: seq<string>)
    requires Frame(content).Some? && ids != [] && forall id | id in ids :: Readable(id)
    ensures forall id :: id in ExtractIds(Rewrite(content, ids)) <==> id in Reread(ids)
  {
    RewrittenIds(content, ids);
    RepeatMembers(Reread(ids), LineCount(Lines(Frame(content).value.fm)));
  }
}
