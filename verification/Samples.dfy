/** Small pages with a title and a kind, whose other lines and body are given. */
module Samples {
  import opened Closure
  import opened Frontmatter
  import opened Seqs
  import opened Text
  import opened Validator
  import opened Wikilinks
  import opened Wrappers

  const TITLE := "title" + ":" + " t"
  const KIND := "kind" + ":" + " k"

  /** The frontmatter lines of such a page, from the opening fence on. */
  function LinesOf(more: seq<string>): seq<string> {
    ["", TITLE, KIND] + more
  }

  function Sample(more: seq<string>, body: string): string {
    PageOf(LinesOf(more), body)
  }

  /** A line that is neither a fence nor a link. */
  predicate PlainLine(line: string) {
    OneLine(line) && '[' !in line && !StartsWith(line, Frontmatter.OPEN)
  }

  predicate AllPlain(lines: seq<string>) {
    forall l | l in lines :: PlainLine(l)
  }

  lemma PlainWithHead(line: string)
    requires line != "" && line[0] != '-' && OneLine(line) && '[' !in line
    ensures PlainLine(line)
  {
    HeadDecides(line, Frontmatter.OPEN);
  }

  lemma BaseIsPlain()
    ensures PlainLine("") && PlainLine(TITLE) && PlainLine(KIND)
  {
    PlainWithHead(TITLE);
    PlainWithHead(KIND);
  }

  lemma LinesArePlain(more: seq<string>)
    requires AllPlain(more)
    ensures AllPlain(LinesOf(more)) && AllOneLine(LinesOf(more)) && Unfenced(LinesOf(more))
  {
    BaseIsPlain();
    var lines := LinesOf(more);
    forall i | 0 <= i < |lines|
      ensures PlainLine(lines[i])
    {
      if i >= 3 {
        assert lines[i] == more[i - 3];
      }
    }
  }

  // ---------- the two keys ----------

  lemma {:induction false} LineSurvives(lines: seq<string>, line: string)
    requires line in lines && line != "" && '\r' !in line
    ensures line in Relined(lines)
  {
    if |lines| > 1 {
      HeadTail(lines);
      if line != lines[0] {
        LineSurvives(lines[1..], line);
      }
    }
  }

  lemma KeyHeads(line: string, key: string, rest: string)
    requires line == key + ":" + rest && key != "" && !IsSpace(key[0])
    ensures StartsWith(TrimStart(line), key + ":")
  {
    assert line[0] == key[0];
    assert line[..|key| + 1] == key + ":";
  }

  lemma KeyOfLine(lines: seq<string>, body: string, line: string, key: string)
    requires AllOneLine(lines) && Unfenced(lines) && line in lines && line != "" && '\r' !in line
    requires StartsWith(TrimStart(line), key + ":")
    ensures Keyed(PageOf(lines, body), key)
  {
    PageOfReads(lines, body);
    LineSurvives(lines, line);
  }

  lemma KeyLinesAreKeyed()
    ensures StartsWith(TrimStart(TITLE), "title" + ":") && StartsWith(TrimStart(KIND), "kind" + ":")
    ensures TITLE != "" && '\r' !in TITLE && KIND != "" && '\r' !in KIND
  {
    KeyHeads(TITLE, "title", " t");
    KeyHeads(KIND, "kind", " k");
  }

  lemma SampleHasKeys(more: seq<string>, body: string)
    requires AllPlain(more)
    ensures HasKeys(Sample(more, body))
  {
    LinesArePlain(more);
    KeyLinesAreKeyed();
    assert LinesOf(more)[1] == TITLE && LinesOf(more)[2] == KIND;
    KeyOfLine(LinesOf(more), body, TITLE, "title");
    KeyOfLine(LinesOf(more), body, KIND, "kind");
  }

  // ---------- ids and links ----------

  lemma KeyLineHoldsNone(line: string)
    requires line != "" && !IsSpace(line[0]) && line[0] != KEY[0]
    ensures IdsOfLine(line) == []
  {
    HeadDecides(line, KEY);
  }

  lemma BaseHoldsNone<U>(f: string -> seq<U>, a: string, b: string, c: string, more: seq<string>)
    requires f(a) == f(b) == f(c) == []
    ensures FlatMap(f, [a, b, c] + more) == FlatMap(f, more)
  {
    assert [a, b, c] + more == [a] + ([b] + ([c] + more));
    FlatMapAppend(f, [a], [b] + ([c] + more));
    FlatMapAppend(f, [b], [c] + more);
    FlatMapAppend(f, [c], more);
    FlatMapOne(f, a);
    FlatMapOne(f, b);
    FlatMapOne(f, c);
    AppendEmpty(FlatMap(f, more));
  }

  lemma SampleIds(more: seq<string>, body: string)
    requires AllPlain(more)
    ensures ExtractIds(Sample(more, body)) == FlatMap(IdsOfLine, more)
  {
    LinesArePlain(more);
    PageOfReads(LinesOf(more), body);
    EmptyLineHoldsNone();
    KeyLineHoldsNone(TITLE);
    KeyLineHoldsNone(KIND);
    BaseHoldsNone(IdsOfLine, "", TITLE, KIND, more);
  }

  lemma BodyLinks(fm: string, body: string)
    requires '[' !in fm
    ensures Links(Reframe(Page("", fm, AFTER + body))) == Links(body)
  {
    assert (AFTER + body)[..|Frontmatter.CLOSE|] == Frontmatter.CLOSE;
    NoOpening(fm);
    FramedLinks(Page("", fm, AFTER + body));
    NoOpening(AFTER);
    LinksConcat(AFTER, body);
    AppendEmpty(Links(body));
    AppendEmpty(Links(AFTER + body));
  }

  /** A sample links to what its body links to. */
  lemma SampleLinks(more: seq<string>, body: string)
    requires AllPlain(more)
    ensures Links(Sample(more, body)) == Links(body)
  {
    LinesArePlain(more);
    JoinLacks(LinesOf(more), "\n", '[');
    BodyLinks(Join(LinesOf(more), "\n"), body);
  }

  lemma SampleIsWellFormed(more: seq<string>, body: string, universe: set<string>)
    requires AllPlain(more) && forall t | t in Links(body) :: PathOnly(t) in universe
    ensures WellFormed(Sample(more, body), universe)
  {
    SampleHasKeys(more, body);
    SampleLinks(more, body);
  }

  /** One link and nothing else. */
  function LinkTo(path: string): string {
    "[[" + path + "]]"
  }

  lemma LinkToLinks(path: string)
    requires path != "" && !IsSpace(path[0]) && !IsSpace(path[|path| - 1])
    requires '[' !in path && ']' !in path && '#' !in path
    ensures Links(LinkTo(path)) == [path] && PathOnly(path) == path
  {
    var s := LinkTo(path);
    assert OccursAt(s, Wikilinks.OPEN, 0);
    var after := path + "]]";
    assert s[|Wikilinks.OPEN|..] == after;
    FirstClose(path);
    NoOpening("");
    TrimIsIdentity(path);
    SplitWhole(path, '#');
    AppendEmpty([path]);
  }

  lemma FirstClose(path: string)
    requires ']' !in path
    ensures UpToClose(path + "]]") == Some((path, ""))
  {
    var after := path + "]]";
    assert after[|path|..|path| + 2] == "]]";
    assert OccursAt(after, Wikilinks.CLOSE, |path|);
    forall k | 0 <= k < |path|
      ensures !OccursAt(after, Wikilinks.CLOSE, k)
    {
      assert k + 2 <= |after| ==> after[k..k + 2][0] == path[k] && path[k] in path;
    }
    assert after[..|path|] == path && after[|path| + 2..] == "";
  }

  // ---------- length ----------

  lemma SampleLength(more: seq<string>, body: string)
    ensures |Sample(more, body)| == |Join(LinesOf(more), "\n")| + 8 + |body|
  {
  }

  lemma BaseLength()
    ensures Join(LinesOf([]), "\n") == "\n" + TITLE + "\n" + KIND
  {
    var lines := LinesOf([]);
    assert lines == ["", TITLE, KIND];
    assert lines[1..] == [TITLE, KIND] && lines[1..][1..] == [KIND];
    assert "" + "\n" + (TITLE + "\n" + KIND) == "\n" + TITLE + "\n" + KIND;
  }
}
