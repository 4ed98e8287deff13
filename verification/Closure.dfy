/** Link closure across a removal: exactly when it survives. */
module Closure {
  import opened Frontmatter
  import opened Paths
  import opened Remove
  import opened Seqs
  import opened Text
  import opened Validator
  import opened Wiki
  import opened Wikilinks
  import opened Wrappers

  // ---------- rewriting keeps the other keys ----------

  predicate Begins(line: string, needle: string) {
    StartsWith(TrimStart(line), needle)
  }

  /** Marks what a test accepts. */
  function Mark<T>(test: T -> bool): T -> seq<bool> {
    (x: T) => if test(x) then [true] else []
  }

  /** Marks a line that begins with the key. */
  function KeyMark(needle: string): string -> seq<bool> {
    Mark((line: string) => Begins(line, needle))
  }

  predicate AnyBegins(lines: seq<string>, needle: string) {
    exists line :: line in lines && Begins(line, needle)
  }

  lemma AnyMarked<T>(test: T -> bool, s: seq<T>)
    ensures (exists x | x in s :: test(x)) <==> FlatMap(Mark(test), s) != []
  {
    FlatMapEmpty(Mark(test), s);
  }

  lemma HasMark(lines: seq<string>, needle: string)
    ensures AnyBegins(lines, needle) <==> FlatMap(KeyMark(needle), lines) != []
  {
    AnyMarked((line: string) => Begins(line, needle), lines);
  }

  /** Neither a `source_ids` line nor its replacement begins with another key. */
  lemma RewrittenLineMarks(needle: string, line: string, list: string)
    requires needle != "" && needle[0] != KEY[0]
    ensures KeyMark(needle)(RewriteLine(LineWith(list))(line)) == KeyMark(needle)(line)
    ensures KeyMark(needle)(LineWith(list)) == []
  {
    assert LineWith(list)[0] == KEY[0] && !IsSpace(KEY[0]);
    HeadDecides(LineWith(list), needle);
    if IsIdsLine(line) {
      var t := TrimStart(line);
      assert t[..|KEY|][0] == t[0];
      HeadDecides(t, needle);
      TrimStartSplits(line);
      TrimStartOver(Lead(line), LineWith(list));
    }
  }

  lemma NewLinesMark(needle: string, lines: seq<string>, list: string)
    requires needle != "" && needle[0] != KEY[0]
    ensures FlatMap(KeyMark(needle), NewLines(lines, LineWith(list))) == FlatMap(KeyMark(needle), lines)
  {
    var f, g := KeyMark(needle), RewriteLine(LineWith(list));
    forall line
      ensures f(g(line)) == f(line)
    {
      RewrittenLineMarks(needle, line, list);
    }
    RewrittenLineMarks(needle, "", list);
    FlatMapOfMap(f, g, f, lines);
    FlatMapAppend(f, Map(g, lines), if Count(IsIdsLine, lines) == 0 then [LineWith(list)] else []);
    FlatMapOne(f, LineWith(list));
    AppendEmpty(FlatMap(f, lines));
  }

  lemma RelinedMark(needle: string, lines: seq<string>)
    requires '\r' !in needle && needle != ""
    ensures FlatMap(KeyMark(needle), Relined(lines)) == FlatMap(KeyMark(needle), lines)
  {
    forall line
      ensures KeyMark(needle)(StripCr(line)) == KeyMark(needle)(line)
    {
      KeyIgnoresCr(line, needle);
    }
    NoMark(needle);
    RelinedReadsTheSame(KeyMark(needle), lines);
  }

  lemma NoMark(needle: string)
    requires needle != ""
    ensures KeyMark(needle)("") == []
  {
    assert TrimStart("") == "";
    assert !StartsWith("", needle);
  }

  /** The lines of a rewritten page, cut again, begin with another key exactly if the old ones do. */
  lemma NewLinesBegin(lines: seq<string>, list: string, needle: string)
    requires '\r' !in needle && needle != "" && needle[0] != KEY[0]
    ensures AnyBegins(Relined(NewLines(lines, LineWith(list))), needle) <==> AnyBegins(lines, needle)
  {
    HasMark(Relined(NewLines(lines, LineWith(list))), needle);
    HasMark(lines, needle);
    RelinedMark(needle, NewLines(lines, LineWith(list)));
    NewLinesMark(needle, lines, list);
  }

  lemma RewrittenLinesAre(content: string, ids: seq<string>)
    requires Frame(content).Some? && forall id | id in ids :: Readable(id)
    ensures Frame(Rewrite(content, ids)).Some?
    ensures Lines(Frame(Rewrite(content, ids)).value.fm) ==
              Relined(NewLines(Lines(Frame(content).value.fm), LineWith(ListOf(ids))))
  {
    RewrittenLines(content, ids);
    LinesOfJoin(NewLines(Lines(Frame(content).value.fm), IdsLine(ids)));
  }

  lemma KeyedBegins(content: string, key: string)
    requires Frame(content).Some?
    ensures Keyed(content, key) <==> AnyBegins(Lines(Frame(content).value.fm), key + ":")
  {
  }

  lemma RewriteKeepsBeginning(content: string, ids: seq<string>, needle: string)
    requires Frame(content).Some? && forall id | id in ids :: Readable(id)
    requires OtherKey(needle)
    ensures Frame(Rewrite(content, ids)).Some?
    ensures AnyBegins(Lines(Frame(Rewrite(content, ids)).value.fm), needle)
       <==> AnyBegins(Lines(Frame(content).value.fm), needle)
  {
    RewrittenLinesAre(content, ids);
    NewLinesBegin(Lines(Frame(content).value.fm), ListOf(ids), needle);
  }

  predicate OtherKey(key: string) {
    key != "" && key[0] != KEY[0] && '\r' !in key
  }

  lemma ColonKeepsOther(key: string)
    requires OtherKey(key)
    ensures OtherKey(key + ":")
  {
  }

  /** A rewritten page has a key exactly if it had it before. */
  lemma RewriteKeepsKey(content: string, ids: seq<string>, key: string)
    requires Frame(content).Some? && OtherKey(key) && forall id | id in ids :: Readable(id)
    ensures Keyed(Rewrite(content, ids), key) <==> Keyed(content, key)
  {
    ColonKeepsOther(key);
    RewriteKeepsBeginning(content, ids, key + ":");
    KeyedBegins(content, key);
    KeyedBegins(Rewrite(content, ids), key);
  }

  // ---------- rewriting and the links ----------

  /** The links of a line that rewriting leaves alone. */
  function OtherLinks(line: string): seq<string> {
    if IsIdsLine(line) then [] else Links(line)
  }

  /** The links of a page but for those on its `source_ids` lines. */
  function LinksElsewhere(content: string): seq<string> {
    match Frame(content)
    case None => Links(content)
    case Some(p) => FlatMap(OtherLinks, Lines(p.fm)) + Links(p.rest)
  }

  /** Every frontmatter line closes the links it opens. */
  predicate IsLineWise(content: string) {
    Frame(content).Some? && forall l | l in Lines(Frame(content).value.fm) :: Balanced(l)
  }

  predicate Unbracketed(ids: seq<string>) {
    forall id | id in ids :: '[' !in id
  }

  lemma IdsLineOpensNothing(lead: string, ids: seq<string>)
    requires AllSpace(lead) && Unbracketed(ids)
    ensures Balanced(lead + IdsLine(ids)) && Links(lead + IdsLine(ids)) == []
  {
    var list := ListOf(ids);
    QuotedLacks(ids);
    JoinLacks(Map(Quote, ids), ", ", '[');
    KeyLacks(lead);
    assert lead + IdsLine(ids) == (lead + (KEY + " ")) + "[" + (list + "]");
    OneBracket(lead + (KEY + " "), list + "]");
  }

  lemma KeyLacks(lead: string)
    requires AllSpace(lead)
    ensures '[' !in lead + (KEY + " ")
  {
    assert forall c | c in lead :: IsSpace(c);
  }

  lemma QuotedLacks(ids: seq<string>)
    requires Unbracketed(ids)
    ensures forall q | q in Map(Quote, ids) :: '[' !in q
  {
    forall q | q in Map(Quote, ids)
      ensures '[' !in q
    {
      var i :| 0 <= i < |ids| && q == Quote(ids[i]);
      assert ids[i] in ids;
    }
  }

  lemma RewrittenLineLinks(ids: seq<string>, line: string)
    requires Unbracketed(ids) && Balanced(line)
    ensures Balanced(RewriteLine(IdsLine(ids))(line))
    ensures Links(RewriteLine(IdsLine(ids))(line)) == OtherLinks(line)
  {
    if IsIdsLine(line) {
      TrimStartSplits(line);
      IdsLineOpensNothing(Lead(line), ids);
    }
  }

  lemma {:induction false} RewrittenLinks(ids: seq<string>, lines: seq<string>)
    requires Unbracketed(ids) && forall l | l in lines :: Balanced(l)
    ensures var ls := Map(RewriteLine(IdsLine(ids)), lines);
            FlatMap(Links, ls) == FlatMap(OtherLinks, lines) && forall l | l in ls :: Balanced(l)
  {
    if lines != [] {
      HeadTail(lines);
      MapHead(RewriteLine(IdsLine(ids)), lines);
      TailAppend([RewriteLine(IdsLine(ids))(lines[0])], Map(RewriteLine(IdsLine(ids)), lines[1..]));
      AppendEmpty(Map(RewriteLine(IdsLine(ids)), lines[1..]));
      RewrittenLineLinks(ids, lines[0]);
      RewrittenLinks(ids, lines[1..]);
    }
  }

  lemma NewLinesLinks(ids: seq<string>, lines: seq<string>)
    requires Unbracketed(ids) && forall l | l in lines :: Balanced(l)
    ensures var ls := NewLines(lines, IdsLine(ids));
            FlatMap(Links, ls) == FlatMap(OtherLinks, lines) && forall l | l in ls :: Balanced(l)
  {
    var mapped := Map(RewriteLine(IdsLine(ids)), lines);
    var added := if Count(IsIdsLine, lines) == 0 then [IdsLine(ids)] else [];
    RewrittenLinks(ids, lines);
    IdsLineOpensNothing("", ids);
    assert "" + IdsLine(ids) == IdsLine(ids);
    FlatMapAppend(Links, mapped, added);
    FlatMapOne(Links, IdsLine(ids));
    AppendEmpty(FlatMap(Links, mapped));
  }

  lemma FramedLinks(p: Page)
    requires AllSpace(p.lead) && Balanced(p.fm) && StartsWith(p.rest, Frontmatter.CLOSE)
    ensures Links(Reframe(p)) == Links(p.fm) + Links(p.rest)
  {
    assert p.rest[..|Frontmatter.CLOSE|][0] == p.rest[0] == '\n';
    assert forall c | c in p.lead :: IsSpace(c);
    NoOpening(p.lead + Frontmatter.OPEN);
    AppendAssociates(p.lead + Frontmatter.OPEN, p.fm, p.rest);
    LinksConcat(p.lead + Frontmatter.OPEN, p.fm + p.rest);
    LinksConcat(p.fm, p.rest);
    AppendEmpty(Links(p.fm + p.rest));
  }

  /** Rewriting the ids of a page leaves it the links it has elsewhere, in order. */
  lemma LinksOfRewrite(content: string, ids: seq<string>)
    requires IsLineWise(content) && Unbracketed(ids) && forall id | id in ids :: Readable(id)
    ensures Links(Rewrite(content, ids)) == LinksElsewhere(content)
    ensures Links(content) == FlatMap(Links, Lines(Frame(content).value.fm)) + Links(Frame(content).value.rest)
  {
    var p := Frame(content).value;
    FrameParts(content);
    LinksOfLines(p.fm);
    FramedLinks(p);
    NewLinesLinks(ids, Lines(p.fm));
    LinksOfJoin(NewLines(Lines(p.fm), IdsLine(ids)));
    FramedLinks(p.(fm := Join(NewLines(Lines(p.fm), IdsLine(ids)), "\n")));
  }

  lemma {:induction false} OthersAreLinks(lines: seq<string>)
    ensures forall t | t in FlatMap(OtherLinks, lines) :: t in FlatMap(Links, lines)
  {
    if lines != [] {
      OthersAreLinks(lines[1..]);
    }
  }

  // ---------- closure ----------

  lemma RecitedStaysKeyed(files: Files, source: string, path: string, key: string)
    requires Judged(files, source, path).Recite? && OtherKey(key)
    ensures Keyed(Judged(files, source, path).content, key) <==> Keyed(files[path], key)
  {
    RecitedPage(files, source, path);
    RewriteKeepsKey(files[path], Remaining(files[path], source), key);
  }

  /** A page that stays keeps its keys. */
  lemma StaysKeyed(files: Files, source: string, entry: string, path: string, key: string)
    requires path in Pages(files) && !IsSystem(path) && OtherKey(key)
    ensures path in FilesLeft(files, source, entry) ==>
              (Keyed(FilesLeft(files, source, entry)[path], key) <==> Keyed(files[path], key))
  {
    FilesLeftAt(files, source, entry, path);
    if Judged(files, source, path).Recite? {
      RecitedStaysKeyed(files, source, path, key);
      RecitedIsLeft(files, source, entry, path);
    } else {
      KeptPage(files, source, entry, path);
    }
  }

  /** The pages of a removal's outcome are the old ones less the deleted ones. */
  lemma PagesLeft(files: Files, source: string, entry: string)
    ensures Pages(FilesLeft(files, source, entry)) == Pages(files) - ToDelete(files, source)
  {
    forall p
      ensures p in Pages(FilesLeft(files, source, entry)) <==> p in Pages(files) - ToDelete(files, source)
    {
      FilesLeftAt(files, source, entry, p);
    }
  }

  lemma KeysAreOther()
    ensures OtherKey("title") && OtherKey("kind")
  {
  }

  lemma AllStayKeyed(files: Files, source: string, entry: string)
    requires Closed(files)
    ensures var left := FilesLeft(files, source, entry); forall p | p in Pages(left) && !IsSystem(p) :: HasKeys(left[p])
  {
    PagesLeft(files, source, entry);
    KeysAreOther();
    forall p | p in Pages(FilesLeft(files, source, entry)) && !IsSystem(p)
      ensures HasKeys(FilesLeft(files, source, entry)[p])
    {
      assert WellFormed(files[p], Pages(files));
      StaysKeyed(files, source, entry, p, "title");
      StaysKeyed(files, source, entry, p, "kind");
    }
  }

  lemma ClosedIsKeyedAndLinked(files: Files)
    ensures Closed(files) <==>
              && (forall p | p in Pages(files) && !IsSystem(p) :: HasKeys(files[p]))
              && forall p, t | p in Pages(files) && !IsSystem(p) && t in Links(files[p]) :: PathOnly(t) in Pages(files)
  {
  }

  /** The links a page is left with by a removal, from what it holds before. */
  function LinksKept(files: Files, source: string, path: string): seq<string>
    requires path in files
  {
    if path in ToPatch(files, source) then LinksElsewhere(files[path]) else Links(files[path])
  }

  /** The pages a removal rewrites are such that rewriting reads them line by line. */
  predicate RewritesLineWise(files: Files, source: string) {
    forall p | p in ToPatch(files, source) :: IsLineWise(files[p]) && Unbracketed(Remaining(files[p], source))
  }

  lemma LinksLeft(files: Files, source: string, entry: string, path: string)
    requires RewritesLineWise(files, source) && path in Pages(files) - ToDelete(files, source) && !IsSystem(path)
    ensures var left := FilesLeft(files, source, entry);
            path in left && Links(left[path]) == LinksKept(files, source, path)
    ensures forall t | t in LinksKept(files, source, path) :: t in Links(files[path])
  {
    FilesLeftAt(files, source, entry, path);
    if Judged(files, source, path).Recite? {
      RecitedPage(files, source, path);
      RecitedIsLeft(files, source, entry, path);
      LinksOfRewrite(files[path], Remaining(files[path], source));
      OthersAreLinks(Lines(Frame(files[path]).value.fm));
    } else {
      KeptPage(files, source, entry, path);
    }
  }

  /** A removal keeps a closed wiki closed if and only if no page that stays linked to a deleted one,
      other than from a `source_ids` line of a page that is rewritten: only the index is cleaned. */
  lemma RemovalKeepsClosedExactly(files: Files, source: string, entry: string)
    requires Closed(files) && RewritesLineWise(files, source)
    ensures Closed(FilesLeft(files, source, entry)) <==>
              forall p, t |
                p in Pages(files) - ToDelete(files, source) && !IsSystem(p) && t in LinksKept(files, source, p) ::
                PathOnly(t) !in ToDelete(files, source)
  {
    var left := FilesLeft(files, source, entry);
    AllStayKeyed(files, source, entry);
    PagesLeft(files, source, entry);
    ClosedIsKeyedAndLinked(left);
    forall p | p in Pages(left) && !IsSystem(p)
      ensures Links(left[p]) == LinksKept(files, source, p)
      ensures forall t | t in LinksKept(files, source, p) :: PathOnly(t) in Pages(files)
    {
      LinksLeft(files, source, entry, p);
      assert WellFormed(files[p], Pages(files));
    }
  }
}
