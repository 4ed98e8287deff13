/** Finding `[[target]]` links in text, and dropping the lines of an index that hold dead ones. */
module Wikilinks {
  import opened Seqs
  import opened Text
  import opened Wrappers

  const OPEN := "[["
  const CLOSE := "]]"

  /** The text of a link from behind its opening, and the text after it. */
  function UpToClose(after: string): (r: Option<(string, string)>)
    ensures r.Some? ==> |r.value.1| <= |after|
  {
    match FindSub(after, CLOSE)
    case None => None
    case Some(end) => Some((after[..end], after[end + |CLOSE|..]))
  }

  /** The text of the first link and the text after it. */
  function FirstLink(s: string): (r: Option<(string, string)>)
    ensures r.Some? ==> |r.value.1| < |s|
  {
    match FindSub(s, OPEN)
    case None => None
    case Some(start) => UpToClose(s[start + |OPEN|..])
  }

  /** The trimmed targets, left to right; an unclosed link ends the search. */
  function Links(s: string): seq<string>
    decreases |s|
  {
    match FirstLink(s)
    case None => []
    case Some((target, rest)) => [Trim(target)] + Links(rest)
  }

  lemma NoLinks(s: string)
    requires '[' !in s
    ensures Links(s) == []
  {
    NoHeadNoOccurrence(s, OPEN);
  }

  /** A target without its anchor. */
  function PathOnly(target: string): string {
    Split(target, '#')[0]
  }

  predicate LinksTo(s: string, paths: set<string>) {
    exists t :: t in Links(s) && PathOnly(t) in paths
  }

  method ExtractWikilinks(content: string) returns (out: seq<string>)
    ensures out == Links(content)
  {
    out := [];
    var bytes := content;
    while true
      invariant out + Links(bytes) == Links(content)
      decreases |bytes|
    {
      match FirstLink(bytes) {
        case None =>
          AppendEmpty(out);
          return;
        case Some((target, rest)) =>
          AppendAssociates(out, [Trim(target)], Links(rest));
          out := out + [Trim(target)];
          bytes := rest;
      }
    }
  }

  /** Whether an index line stays: the scan stops at the first dead link. */
  method KeepsLine(line: string, deleted: set<string>) returns (keep: bool)
    ensures keep <==> !LinksTo(line, deleted)
  {
    keep := true;
    var bytes := line;
    while true
      invariant LinksTo(bytes, deleted) <==> LinksTo(line, deleted)
      invariant keep
      decreases |bytes|
    {
      match FirstLink(bytes) {
        case None => return;
        case Some((target, rest)) =>
          assert Trim(target) in Links(bytes);
          if PathOnly(Trim(target)) in deleted {
            return false;
          }
          LinksToRest(bytes, deleted);
          bytes := rest;
      }
    }
  }

  lemma LinksToRest(s: string, paths: set<string>)
    requires FirstLink(s).Some? && PathOnly(Trim(FirstLink(s).value.0)) !in paths
    ensures LinksTo(s, paths) <==> LinksTo(FirstLink(s).value.1, paths)
  {
    var (target, rest) := FirstLink(s).value;
    ConsMembers(Trim(target), Links(rest));
  }

  function KeptLines(content: string, deleted: set<string>): seq<string> {
    Filter((line: string) => !LinksTo(line, deleted), Lines(content))
  }

  function CleanIndex(content: string, deleted: set<string>): string {
    Join(KeptLines(content, deleted), "\n") + "\n"
  }

  method RemoveWikilinksFromIndex(content: string, deletedPaths: seq<string>) returns (r: string)
    ensures r == CleanIndex(content, Elements(deletedPaths))
  {
    var deleted := Elements(deletedPaths);
    var lines, kept := Lines(content), [];
    ghost var alive := (line: string) => !LinksTo(line, deleted);
    for i := 0 to |lines|
      invariant kept == Filter(alive, lines[..i])
    {
      FilterStep(alive, lines, i);
      var keep := KeepsLine(lines[i], deleted);
      if keep {
        kept := kept + [lines[i]];
      }
    }
    assert lines[..|lines|] == lines;
    r := Join(kept, "\n") + "\n";
  }

  // ---------- links of text put together ----------

  /** Every link it opens it closes. */
  predicate Balanced(s: string)
    decreases |s|
  {
    FindSub(s, OPEN).Some? ==> FirstLink(s).Some? && Balanced(FirstLink(s).value.1)
  }

  /** No opening is formed where the two meet. */
  predicate Apart(a: string, b: string) {
    a == "" || b == "" || a[|a| - 1] != '[' || b[0] != '['
  }

  lemma FindInFirst(a: string, b: string, p: string)
    requires p != "" && FindSub(a, p).Some?
    ensures FindSub(a + b, p) == FindSub(a, p)
  {
    forall k | 0 <= k <= |a| - |p|
      ensures OccursAt(a + b, p, k) <==> OccursAt(a, p, k)
    {
      assert (a + b)[k..k + |p|] == a[k..k + |p|];
    }
  }

  lemma FoundBehind(before: string, p: string, rest: string)
    requires p != "" && FindSub(before + p, p) == Some(|before|)
    ensures FindSub(before + p + rest, p) == Some(|before|)
    ensures (before + p + rest)[..|before|] == before && (before + p + rest)[|before| + |p|..] == rest
  {
    FindInFirst(before + p, rest, p);
  }

  lemma Nested(a: string, b: string, c: string, d: string, e: string)
    ensures a + b + c + d + e == a + b + (c + d + e)
  {
  }

  lemma FirstLinkIs(before: string, target: string, more: string)
    requires FindSub(before + OPEN, OPEN) == Some(|before|) && FindSub(target + CLOSE, CLOSE) == Some(|target|)
    ensures FirstLink(before + OPEN + (target + CLOSE + more)) == Some((target, more))
  {
    FoundBehind(before, OPEN, target + CLOSE + more);
    FoundBehind(target, CLOSE, more);
  }

  /** A link is read as what stands, trimmed, between the first opening and the next closing, and the
      search goes on behind it. */
  lemma LinkIsRead(before: string, target: string, more: string)
    requires FindSub(before + "[[", "[[") == Some(|before|) && FindSub(target + "]]", "]]") == Some(|target|)
    ensures Links(before + "[[" + target + "]]" + more) == [Trim(target)] + Links(more)
  {
    Nested(before, OPEN, target, CLOSE, more);
    FirstLinkIs(before, target, more);
  }

  /** The path of a target is what stands before its first `#`. */
  lemma PathIsBeforeAnchor(path: string, anchor: string)
    requires '#' !in path
    ensures PathOnly(path) == path && PathOnly(path + "#" + anchor) == path
  {
    SplitWhole(path, '#');
    SplitFirst(path, '#', anchor);
    AppendAssociates(path, "#", anchor);
  }

  lemma FirstLinkStays(a: string, b: string)
    requires FirstLink(a).Some?
    ensures FirstLink(a + b) == Some((FirstLink(a).value.0, FirstLink(a).value.1 + b))
  {
    var start := FindSub(a, OPEN).value;
    var after := a[start + |OPEN|..];
    var end := FindSub(after, CLOSE).value;
    FindInFirst(a, b, OPEN);
    DropAppend(a, b, start + |OPEN|);
    FindInFirst(after, b, CLOSE);
    DropAppend(after, b, end);
    DropAppend(after, b, end + |CLOSE|);
  }

  predicate Opens(s: string, k: int) {
    0 <= k < |s| - 1 && s[k] == '[' && s[k + 1] == '['
  }

  lemma OpeningAt(s: string, k: int)
    ensures OccursAt(s, OPEN, k) <==> Opens(s, k)
  {
    if 0 <= k <= |s| - 2 {
      assert s[k..k + 2] == [s[k], s[k + 1]];
    }
  }

  lemma OpensInSecond(a: string, b: string, k: int)
    requires !Opens(a, k) && Apart(a, b)
    ensures Opens(a + b, k) <==> Opens(b, k - |a|)
  {
    var s := a + b;
    if k >= |a| {
      assert k < |s| ==> s[k] == b[k - |a|];
      assert k + 1 < |s| ==> s[k + 1] == b[k + 1 - |a|];
    } else if 0 <= k {
      assert s[k] == a[k];
      assert k + 1 < |s| ==> s[k + 1] == if k + 1 < |a| then a[k + 1] else b[0];
    }
  }

  lemma OpeningInSecond(a: string, b: string, k: int)
    requires FindSub(a, OPEN).None? && Apart(a, b)
    ensures OccursAt(a + b, OPEN, k) <==> OccursAt(b, OPEN, k - |a|)
  {
    OpeningAt(a + b, k);
    OpeningAt(b, k - |a|);
    OpeningAt(a, k);
    OpensInSecond(a, b, k);
  }

  lemma FindShifted(a: string, b: string, p: string)
    requires p != "" && forall k :: OccursAt(a + b, p, k) <==> OccursAt(b, p, k - |a|)
    ensures FindSub(a + b, p) == match FindSub(b, p) case None => None case Some(start) => Some(|a| + start)
  {
    var whole, second := FindSub(a + b, p), FindSub(b, p);
    if whole.Some? {
      assert OccursAt(b, p, whole.value - |a|);
    }
    if second.Some? {
      assert OccursAt(b, p, |a| + second.value - |a|);
      assert OccursAt(a + b, p, |a| + second.value);
      assert whole.Some? && whole.value <= |a| + second.value;
    }
  }

  lemma FirstLinkFrom(a: string, b: string)
    requires FindSub(a + b, OPEN) == match FindSub(b, OPEN) case None => None case Some(start) => Some(|a| + start)
    ensures FirstLink(a + b) == FirstLink(b)
  {
    if FindSub(b, OPEN).Some? {
      DropPast(a, b, FindSub(b, OPEN).value + |OPEN|);
    }
  }

  lemma FirstLinkInSecond(a: string, b: string)
    requires FindSub(a, OPEN).None? && Apart(a, b)
    ensures FirstLink(a + b) == FirstLink(b)
    ensures FindSub(a + b, OPEN).Some? <==> FindSub(b, OPEN).Some?
  {
    forall k
      ensures OccursAt(a + b, OPEN, k) <==> OccursAt(b, OPEN, k - |a|)
    {
      OpeningInSecond(a, b, k);
    }
    FindShifted(a, b, OPEN);
    FirstLinkFrom(a, b);
  }

  /** Links of two texts, when the first closes what it opens, are the links of each. */
  lemma {:induction false} LinksConcat(a: string, b: string)
    requires Balanced(a) && Apart(a, b)
    ensures Links(a + b) == Links(a) + Links(b)
    ensures Balanced(b) ==> Balanced(a + b)
    decreases |a|
  {
    if FindSub(a, OPEN).None? {
      FirstLinkInSecond(a, b);
      AppendEmpty(Links(b));
    } else {
      var (target, rest) := FirstLink(a).value;
      FirstLinkStays(a, b);
      assert rest != "" ==> rest[|rest| - 1] == a[|a| - 1];
      LinksConcat(rest, b);
      AppendAssociates([Trim(target)], Links(rest), Links(b));
    }
  }

  lemma NoOpening(s: string)
    requires '[' !in s
    ensures Balanced(s) && Links(s) == [] && FindSub(s, OPEN).None?
  {
    NoHeadNoOccurrence(s, OPEN);
  }

  /** A single bracket opens nothing. */
  lemma OneBracket(a: string, b: string)
    requires '[' !in a && '[' !in b
    ensures Balanced(a + "[" + b) && Links(a + "[" + b) == []
  {
    var s := a + "[" + b;
    assert forall i | 0 <= i < |s| && s[i] == '[' :: i == |a|;
    forall k
      ensures !OccursAt(s, OPEN, k)
    {
      if 0 <= k <= |s| - 2 {
        assert s[k..k + 2][0] == s[k] && s[k..k + 2][1] == s[k + 1];
      }
    }
  }

  lemma LinkAcrossBreak(a: string, b: string)
    requires Balanced(a)
    ensures Links(a + "\n" + b) == Links(a) + Links(b)
    ensures Balanced(b) ==> Balanced(a + "\n" + b)
  {
    NoOpening("\n");
    LinksConcat("\n", b);
    AppendEmpty(Links(b));
    AppendAssociates(a, "\n", b);
    LinksConcat(a, "\n" + b);
  }

  /** Lines that close their links have, joined, the links of each. */
  lemma {:induction false} LinksOfJoin(lines: seq<string>)
    requires forall l | l in lines :: Balanced(l)
    ensures Links(Join(lines, "\n")) == FlatMap(Links, lines) && Balanced(Join(lines, "\n"))
  {
    if lines == [] {
      NoOpening("");
    } else {
      HeadTail(lines);
      LinksOfJoin(lines[1..]);
      if |lines| == 1 {
        FlatMapOne(Links, lines[0]);
      } else {
        LinkAcrossBreak(lines[0], Join(lines[1..], "\n"));
      }
    }
  }

  lemma {:induction false} BalancedIgnoresCr(s: string)
    requires Balanced(s)
    ensures Balanced(s + "\r")
    decreases |s|
  {
    FindIgnoresCr(s, OPEN);
    if FindSub(s, OPEN).Some? {
      FirstLinkIgnoresCr(s);
      BalancedIgnoresCr(FirstLink(s).value.1);
    }
  }

  lemma RawLine(line: string)
    requires Balanced(StripCr(line))
    ensures Balanced(line) && Links(line) == Links(StripCr(line))
  {
    CrBack(line);
    if line != StripCr(line) {
      BalancedIgnoresCr(StripCr(line));
      LinksIgnoreCr(StripCr(line));
    }
  }

  /** So has a text whose lines close their links. */
  lemma {:induction false} LinksOfLines(s: string)
    requires forall l | l in Lines(s) :: Balanced(l)
    ensures Links(s) == FlatMap(Links, Lines(s)) && Balanced(s)
    decreases |s|
  {
    if s == "" {
      NoOpening(s);
    } else {
      match FindSub(s, "\n")
      case None => FlatMapOne(Links, s);
      case Some(i) =>
        var raw, rest := s[..i], s[i + 1..];
        assert s == raw + "\n" + rest;
        TailAppend([StripCr(raw)], Lines(rest));
        assert StripCr(raw) in Lines(s) && forall l | l in Lines(rest) :: l in Lines(s);
        RawLine(raw);
        LinksOfLines(rest);
        LinkAcrossBreak(raw, rest);
        AppendEmpty(Lines(rest));
    }
  }

  // ---------- what is left of an index ----------

  lemma FindIgnoresCr(s: string, p: string)
    requires p != "" && '\r' !in p
    ensures FindSub(s + "\r", p) == FindSub(s, p)
  {
    forall k
      ensures OccursAt(s + "\r", p, k) <==> OccursAt(s, p, k)
    {
      OccurrenceIgnoresCr(s, p, k);
    }
  }

  lemma OccurrenceIgnoresCr(s: string, p: string, k: int)
    requires p != "" && '\r' !in p
    ensures OccursAt(s + "\r", p, k) <==> OccursAt(s, p, k)
  {
    if 0 <= k <= |s| - |p| {
      assert (s + "\r")[k..k + |p|] == s[k..k + |p|];
    } else if k == |s| + 1 - |p| && 0 <= k {
      assert (s + "\r")[k..k + |p|][|p| - 1] == '\r';
      assert p[|p| - 1] in p;
    }
  }

  lemma FirstLinkIgnoresCr(s: string)
    ensures FirstLink(s).None? ==> FirstLink(s + "\r").None?
    ensures FirstLink(s).Some? ==>
              FirstLink(s + "\r") == Some((FirstLink(s).value.0, FirstLink(s).value.1 + "\r"))
  {
    FindIgnoresCr(s, OPEN);
    if FindSub(s, OPEN).Some? {
      var start := FindSub(s, OPEN).value;
      var after := s[start + |OPEN|..];
      DropAppend(s, "\r", start + |OPEN|);
      FindIgnoresCr(after, CLOSE);
      if FindSub(after, CLOSE).Some? {
        DropAppend(after, "\r", FindSub(after, CLOSE).value + |CLOSE|);
        DropAppend(after, "\r", FindSub(after, CLOSE).value);
      }
    }
  }

  lemma {:induction false} LinksIgnoreCr(s: string)
    ensures Links(s + "\r") == Links(s)
    decreases |s|
  {
    FirstLinkIgnoresCr(s);
    if FirstLink(s).Some? {
      LinksIgnoreCr(FirstLink(s).value.1);
    }
  }

  lemma KeptLinesAreAlive(content: string, deleted: set<string>)
    ensures forall line | line in KeptLines(content, deleted) :: OneLine(line) && !LinksTo(line, deleted)
  {
    LinesAreOneLine(content);
    FilterMembers((line: string) => !LinksTo(line, deleted), Lines(content));
  }

  lemma StrippedLinksToTheSame(line: string, deleted: set<string>)
    ensures LinksTo(StripCr(line), deleted) <==> LinksTo(line, deleted)
  {
    CrBack(line);
    LinksIgnoreCr(StripCr(line));
  }

  /** The cleaned index holds exactly the lines without a dead link, in order. */
  lemma CleanIndexLines(content: string, deleted: set<string>)
    ensures var kept := KeptLines(content, deleted);
            Lines(CleanIndex(content, deleted)) == if kept == [] then [""] else Map(StripCr, kept)
  {
    KeptLinesAreAlive(content, deleted);
    LinesOfClosedJoin(KeptLines(content, deleted));
  }

  lemma StrippedAreAlive(kept: seq<string>, deleted: set<string>)
    requires forall line | line in kept :: !LinksTo(line, deleted)
    ensures forall line | line in Map(StripCr, kept) :: !LinksTo(line, deleted)
  {
    forall line | line in Map(StripCr, kept)
      ensures !LinksTo(line, deleted)
    {
      var i :| 0 <= i < |kept| && line == StripCr(kept[i]);
      assert kept[i] in kept;
      StrippedLinksToTheSame(kept[i], deleted);
    }
  }

  /** No line of it has a dead link. */
  lemma CleanIndexIsClean(content: string, deleted: set<string>)
    ensures forall line | line in Lines(CleanIndex(content, deleted)) :: !LinksTo(line, deleted)
  {
    CleanIndexLines(content, deleted);
    KeptLinesAreAlive(content, deleted);
    StrippedAreAlive(KeptLines(content, deleted), deleted);
    NoLinks("");
  }
}
