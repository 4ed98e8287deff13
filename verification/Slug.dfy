/** Slugs, slugified folder paths, and the probing for a free name. */
module Slug {
  import opened Wrappers
  import opened Seqs
  import opened Text

  const MAX_LEN: nat := 80
  const MAX_ATTEMPTS: nat := 1000

  function Lower(c: char): char {
    if 'A' <= c <= 'Z' then c - 'A' + 'a' else c
  }

  /** ASCII letters and digits; only they survive, lowercased. */
  predicate Kept(c: char) {
    'a' <= Lower(c) <= 'z' || '0' <= c <= '9'
  }

  predicate SlugChar(c: char) {
    'a' <= c <= 'z' || '0' <= c <= '9' || c == '-'
  }

  // ---------- what a slug says ----------

  function RunLength(s: string): (n: nat)
    ensures n <= |s| && (forall i | 0 <= i < n :: Kept(s[i])) && (n < |s| ==> !Kept(s[n]))
  {
    if s != "" && Kept(s[0]) then 1 + RunLength(s[1..]) else 0
  }

  function LowerAll(s: string): (r: string)
    ensures |r| == |s| && forall i | 0 <= i < |s| :: r[i] == Lower(s[i])
  {
    if s == "" then "" else [Lower(s[0])] + LowerAll(s[1..])
  }

  /** The maximal runs of letters and digits, lowercased. */
  function Words(s: string): seq<string>
    decreases |s|
  {
    if s == "" then []
    else if Kept(s[0]) then var n := RunLength(s);
                            [LowerAll(s[..n])] + Words(s[n..])
    else Words(s[1..])
  }

  /** The letters and digits by their codes, and what becomes of them. */
  lemma KeptCodes(c: char)
    ensures Kept(c) <==> 65 <= c as int <= 90 || 97 <= c as int <= 122 || 48 <= c as int <= 57
    ensures Lower(c) as int == if 65 <= c as int <= 90 then c as int + 32 else c as int
  {
  }

  lemma LowerConcat(a: string, b: string)
    ensures LowerAll(a + b) == LowerAll(a) + LowerAll(b)
  {
  }

  lemma {:induction false} KeptRun(s: string, n: nat)
    requires n <= |s| && forall i | 0 <= i < n :: Kept(s[i])
    ensures Filter(Kept, s) == s[..n] + Filter(Kept, s[n..])
  {
    if n == 0 {
      AppendEmpty(Filter(Kept, s));
    } else {
      KeptRun(s[1..], n - 1);
      assert s[1..][n - 1..] == s[n..];
      assert s[..n] == [s[0]] + s[1..][..n - 1];
      AppendAssociates([s[0]], s[1..][..n - 1], Filter(Kept, s[n..]));
    }
  }

  /** The words hold the letters and digits of the name, lowercased and in order, and nothing else. */
  lemma {:induction false} WordsKeepLetters(s: string)
    ensures Flatten(Words(s)) == LowerAll(Filter(Kept, s))
    decreases |s|
  {
    if s != "" {
      if Kept(s[0]) {
        var n := RunLength(s);
        WordsKeepLetters(s[n..]);
        KeptRun(s, n);
        LowerConcat(s[..n], Filter(Kept, s[n..]));
        assert Words(s)[1..] == Words(s[n..]);
      } else {
        WordsKeepLetters(s[1..]);
      }
    }
  }

  function TrimDashes(s: string): (r: string)
    ensures r <= s && (r != "" ==> r[|r| - 1] != '-')
    ensures forall i | |r| <= i < |s| :: s[i] == '-'
  {
    if s != "" && s[|s| - 1] == '-' then TrimDashes(s[..|s| - 1]) else s
  }

  function Cut(s: string): string {
    if |s| <= MAX_LEN then s else s[..MAX_LEN]
  }

  function OrUntitled(s: string): string {
    if s == "" then "untitled" else s
  }

  /** The slug of a name: its words joined by dashes, cut to 80 characters, without a dash at
      the cut. */
  function SlugOf(name: string): string {
    OrUntitled(TrimDashes(Cut(Join(Words(name), "-"))))
  }

  // ---------- the character loop ----------

  function Step(out: string, c: char): string {
    if Kept(c) then out + [Lower(c)]
    else if out != "" && out[|out| - 1] != '-' then out + "-"
    else out
  }

  function Scan(out: string, s: string): string
    decreases |s|
  {
    if s == "" then out else Scan(Step(out, s[0]), s[1..])
  }

  /** The loop stops at the cap; it pushes a dash as soon as a word ends, and `lastDash` says
      whether the output is empty or ends in one. */
  method ScanCapped(name: string) returns (out: string)
    ensures out == Cut(Scan("", name))
  {
    out := "";
    var lastDash := true;
    var i := 0;
    ghost var all := Scan("", name);
    while i < |name| && |out| < MAX_LEN
      invariant 0 <= i <= |name| && |out| <= MAX_LEN
      invariant lastDash <==> out == "" || out[|out| - 1] == '-'
      invariant Scan(out, name[i..]) == all
    {
      ghost var before := out;
      var lower := Lower(name[i]);
      if 'a' <= lower <= 'z' || '0' <= lower <= '9' {
        out := out + [lower];
        lastDash := false;
      } else if !lastDash && out != "" {
        out := out + "-";
        lastDash := true;
      }
      assert out == Step(before, name[i]);
      assert name[i..][1..] == name[i + 1..];
      ScanOne(before, name[i..]);
      i := i + 1;
    }
    ScanExtends(out, name[i..]);
  }

  method Slugify(name: string) returns (slug: string)
    ensures slug == SlugOf(name)
  {
    var out := ScanCapped(name);
    ScanIsJoinedWords(name);
    ghost var cut := out;
    while out != "" && out[|out| - 1] == '-'
      invariant TrimDashes(out) == TrimDashes(cut)
      decreases |out|
    {
      out := out[..|out| - 1];
    }
    return if out == "" then "untitled" else out;
  }

  lemma {:induction false} ScanExtends(out: string, s: string)
    ensures out <= Scan(out, s)
    decreases |s|
  {
    if s != "" {
      ScanExtends(Step(out, s[0]), s[1..]);
    }
  }

  /** The words with a dash after each that is followed by anything. */
  function Eager(s: string): string
    decreases |s|
  {
    if s == "" then ""
    else if Kept(s[0]) then
      var n := RunLength(s);
      LowerAll(s[..n]) + (if n == |s| then "" else "-" + Eager(s[n + 1..]))
    else Eager(s[1..])
  }

  lemma {:induction false} ScanRun(out: string, s: string, n: nat)
    requires n <= |s| && forall i | 0 <= i < n :: Kept(s[i])
    ensures Scan(out, s) == Scan(out + LowerAll(s[..n]), s[n..])
    decreases n
  {
    if n == 0 {
      assert out + "" == out && s[0..] == s;
    } else {
      ScanRun(out + [Lower(s[0])], s[1..], n - 1);
      assert s[1..][..n - 1] == s[..n][1..] && s[1..][n - 1..] == s[n..];
      assert out + [Lower(s[0])] + LowerAll(s[..n][1..]) == out + LowerAll(s[..n]);
    }
  }

  lemma ScanOne(out: string, s: string)
    requires s != ""
    ensures Scan(out, s) == Scan(Step(out, s[0]), s[1..])
  {
  }

  /** A whole word scanned, with the dash its end pushes when something follows. */
  lemma ScanWord(out: string, s: string)
    requires s != "" && Kept(s[0])
    ensures var n := RunLength(s);
            Scan(out, s) == if n == |s| then out + LowerAll(s[..n])
                            else Scan(out + LowerAll(s[..n]) + "-", s[n + 1..])
  {
    var n := RunLength(s);
    var word := LowerAll(s[..n]);
    ScanRun(out, s, n);
    if n < |s| {
      assert (out + word)[|out| + n - 1] == word[n - 1] == Lower(s[n - 1]) != '-';
      assert Step(out + word, s[n]) == out + word + "-";
      assert s[n..][1..] == s[n + 1..];
      ScanOne(out + word, s[n..]);
    }
  }

  lemma {:induction false} ScanIsEager(out: string, s: string)
    requires out == "" || out[|out| - 1] == '-'
    ensures Scan(out, s) == out + Eager(s)
    decreases |s|
  {
    if s == "" {
      assert out + "" == out;
    } else if Kept(s[0]) {
      var n := RunLength(s);
      var word := LowerAll(s[..n]);
      ScanWord(out, s);
      if n < |s| {
        ScanIsEager(out + word + "-", s[n + 1..]);
        AppendNests(out, word, "-", Eager(s[n + 1..]));
      } else {
        assert word + "" == word;
      }
    } else {
      ScanIsEager(out, s[1..]);
    }
  }

  lemma {:induction false} EagerIsJoinedWords(s: string)
    ensures Words(s) == [] ==> Eager(s) == ""
    ensures Eager(s) == Join(Words(s), "-") || Eager(s) == Join(Words(s), "-") + "-"
    decreases |s|
  {
    if s == "" {
    } else if Kept(s[0]) {
      var n := RunLength(s);
      var word := LowerAll(s[..n]);
      if n == |s| {
        assert Words(s) == [word] + Words("");
        assert word + "" == word;
      } else {
        var rest := s[n + 1..];
        EagerIsJoinedWords(rest);
        assert s[n..][1..] == rest;
        assert Words(s) == [word] + Words(rest);
        JoinFirst(word, Words(rest), Eager(rest));
      }
    } else {
      EagerIsJoinedWords(s[1..]);
    }
  }

  lemma JoinFirst(word: string, words: seq<string>, tail: string)
    requires words == [] ==> tail == ""
    requires tail == Join(words, "-") || tail == Join(words, "-") + "-"
    ensures var j := Join([word] + words, "-");
            word + ("-" + tail) == j || word + ("-" + tail) == j + "-"
  {
    if words == [] {
      assert word + ("-" + tail) == word + "-";
    } else {
      assert ([word] + words)[1..] == words;
      AppendNests("", word, "-", Join(words, "-"));
      AppendNests(word, "-", Join(words, "-"), "-");
      assert word + "-" + Join(words, "-") == Join([word] + words, "-");
    }
  }

  lemma TrimOneDash(s: string)
    ensures TrimDashes(Cut(s + "-")) == TrimDashes(Cut(s))
  {
    if |s| < MAX_LEN {
      assert Cut(s + "-")[..|s|] == s;
    } else {
      assert (s + "-")[..MAX_LEN] == s[..MAX_LEN];
    }
  }

  lemma ScanIsJoinedWords(name: string)
    ensures TrimDashes(Cut(Scan("", name))) == TrimDashes(Cut(Join(Words(name), "-")))
  {
    ScanIsEager("", name);
    assert "" + Eager(name) == Eager(name);
    EagerIsJoinedWords(name);
    TrimOneDash(Join(Words(name), "-"));
  }

  // ---------- canonical form ----------

  /** Letters and digits with single dashes between them. */
  predicate Clean(s: string) {
    && (forall i | 0 <= i < |s| :: SlugChar(s[i]))
    && (s != "" ==> s[0] != '-')
    && (forall i | 0 <= i < |s| - 1 :: s[i] != '-' || s[i + 1] != '-')
  }

  predicate IsSlug(s: string) {
    1 <= |s| <= MAX_LEN && Clean(s) && s[|s| - 1] != '-'
  }

  lemma {:induction false} ScanIsClean(out: string, s: string)
    requires Clean(out)
    ensures Clean(Scan(out, s))
    decreases |s|
  {
    if s != "" {
      ScanIsClean(Step(out, s[0]), s[1..]);
    }
  }

  /** A slug is never empty, has at most 80 characters of [a-z0-9-], and no leading, trailing or
      doubled dash. */
  lemma SlugShape(name: string)
    ensures IsSlug(SlugOf(name))
  {
    DefaultIsSlug();
    ScanIsClean("", name);
    ScanIsJoinedWords(name);
    TrimIsClean(Cut(Scan("", name)));
  }

  lemma DefaultIsSlug()
    ensures IsSlug("untitled")
  {
  }

  lemma TrimIsClean(s: string)
    requires Clean(s) && |s| <= MAX_LEN
    ensures TrimDashes(s) != "" ==> IsSlug(TrimDashes(s))
  {
    var t := TrimDashes(s);
    assert forall i | 0 <= i < |t| :: t[i] == s[i];
  }

  lemma {:induction false} ScanKeepsClean(out: string, s: string)
    requires Clean(out + s)
    ensures Scan(out, s) == out + s
    decreases |s|
  {
    if s != "" {
      assert (out + s)[|out|] == s[0];
      assert out != "" ==> (out + s)[|out| - 1] == out[|out| - 1];
      assert Step(out, s[0]) == out + [s[0]];
      assert out + [s[0]] + s[1..] == out + s;
      ScanKeepsClean(out + [s[0]], s[1..]);
    }
  }

  /** Slugifying a slug changes nothing: slugs are the fixed points. */
  lemma SlugsAreFixed(s: string)
    ensures IsSlug(s) <==> SlugOf(s) == s
  {
    SlugShape(s);
    if IsSlug(s) {
      ScanIsJoinedWords(s);
      assert Scan("", s) == s by {
        assert "" + s == s;
        ScanKeepsClean("", s);
      }
    }
  }

  predicate IsWord(w: string) {
    w != "" && forall i | 0 <= i < |w| :: SlugChar(w[i]) && w[i] != '-'
  }

  lemma {:induction false} WordsAreWords(s: string)
    ensures forall w | w in Words(s) :: IsWord(w)
    decreases |s|
  {
    if s != "" {
      if Kept(s[0]) {
        WordsAreWords(s[RunLength(s)..]);
      } else {
        WordsAreWords(s[1..]);
      }
    }
  }

  lemma {:induction false} JoinedWordsAreClean(words: seq<string>)
    requires forall w | w in words :: IsWord(w)
    ensures var j := Join(words, "-");
            && (j == "" <==> words == [])
            && (j != "" ==> j[0] != '-' && j[|j| - 1] != '-')
            && forall i | 0 <= i < |j| - 1 :: j[i] != '-' || j[i + 1] != '-'
    decreases |words|
  {
    if words != [] {
      assert words[0] in words;
      HeadTail(words);
      JoinedWordsAreClean(words[1..]);
    }
  }

  /** The slug is the words joined by dashes where these have at most 80 characters, else the first 80 of
      them or, where that would end in a dash, 79. */
  lemma SlugIsCutWords(name: string)
    ensures var joined := Join(Words(name), "-");
            && (joined == "" ==> SlugOf(name) == "untitled")
            && (0 < |joined| <= 80 ==> SlugOf(name) == joined)
            && (|joined| > 80 ==> SlugOf(name) == joined[..if joined[79] == '-' then 79 else 80])
  {
    var joined := Join(Words(name), "-");
    WordsAreWords(name);
    JoinedWordsAreClean(Words(name));
    if |joined| > 80 {
      var cut := joined[..80];
      assert cut[..79] == joined[..79];
      assert TrimDashes(cut[..79]) == if cut[78] == '-' then TrimDashes(cut[..78]) else cut[..79];
    }
  }

  // ---------- folders ----------

  function NonEmpty(parts: seq<string>): seq<string> {
    if parts == [] then []
    else (if parts[0] == "" then [] else [parts[0]]) + NonEmpty(parts[1..])
  }

  function SlugAll(parts: seq<string>): (r: seq<string>)
    ensures |r| == |parts| && forall i | 0 <= i < |parts| :: r[i] == SlugOf(parts[i])
  {
    if parts == [] then [] else [SlugOf(parts[0])] + SlugAll(parts[1..])
  }

  /** The slugified segments of a path, from the root down. */
  function Segments(path: string): seq<string> {
    if Trim(path) == "" then [] else SlugAll(NonEmpty(Split(path, '/')))
  }

  function Render(segments: seq<string>): string {
    "/" + Join(segments, "/")
  }

  /** `/Finance/Q4 Reports/` becomes `/finance/q4-reports`; anything without segments is `/`. */
  function SlugifyFolder(path: string): string {
    Render(Segments(path))
  }

  predicate AllSlugs(parts: seq<string>) {
    forall p | p in parts :: IsSlug(p)
  }

  lemma {:induction false} SlugAllGivesSlugs(parts: seq<string>)
    ensures AllSlugs(SlugAll(parts))
  {
    if parts != [] {
      SlugShape(parts[0]);
      SlugAllGivesSlugs(parts[1..]);
    }
  }

  lemma SegmentsAreSlugs(path: string)
    ensures AllSlugs(Segments(path))
  {
    SlugAllGivesSlugs(NonEmpty(Split(path, '/')));
  }

  lemma {:induction false} SlugsPass(parts: seq<string>)
    requires AllSlugs(parts)
    ensures NonEmpty(parts) == parts && SlugAll(parts) == parts
  {
    if parts != [] {
      SlugsPass(parts[1..]);
      SlugsAreFixed(parts[0]);
    }
  }

  lemma SplitAfterSlash(rest: string)
    ensures Split(['/'] + rest, '/') == [""] + Split(rest, '/')
  {
    AppendEmpty(['/'] + rest);
    SplitFirst("", '/', rest);
  }

  lemma DropEmptyHead(parts: seq<string>)
    ensures NonEmpty([""] + parts) == NonEmpty(parts)
  {
    TailAppend([""], parts);
    AppendEmpty(parts);
    AppendEmpty(NonEmpty(parts));
  }

  lemma SlugsHoldNoSlash(parts: seq<string>)
    requires AllSlugs(parts)
    ensures forall p | p in parts :: '/' !in p
  {
  }

  lemma RenderIsPath(parts: seq<string>)
    ensures Trim(Render(parts)) != "" && Render(parts) == ['/'] + Join(parts, "/")
  {
    TrimEndKeepsHead(Render(parts));
  }

  /** Reading a rendered path gives its segments back. */
  lemma SegmentsOfRender(parts: seq<string>)
    requires AllSlugs(parts)
    ensures Segments(Render(parts)) == parts
  {
    RenderIsPath(parts);
    SplitAfterSlash(Join(parts, "/"));
    DropEmptyHead(Split(Join(parts, "/"), '/'));
    SlugsPass(parts);
    if parts != [] {
      SlugsHoldNoSlash(parts);
      SplitJoin(parts, '/');
    } else {
      DropEmptyHead([]);
      AppendEmpty([""]);
    }
  }

  lemma {:induction false} TrimEndKeepsHead(s: string)
    requires s != "" && !IsSpace(s[0])
    ensures TrimEnd(s) != ""
    decreases |s|
  {
    if IsSpace(s[|s| - 1]) {
      TrimEndKeepsHead(s[..|s| - 1]);
    }
  }

  lemma FolderIsIdempotent(path: string)
    ensures SlugifyFolder(SlugifyFolder(path)) == SlugifyFolder(path)
  {
    SegmentsAreSlugs(path);
    SegmentsOfRender(Segments(path));
  }

  // ---------- probing for a free name ----------

  function Decimal(n: nat): string {
    if n < 10 then [('0' as int + n) as char] else Decimal(n / 10) + [('0' as int + n % 10) as char]
  }

  function Value(s: string): int {
    if s == "" then 0 else Value(s[..|s| - 1]) * 10 + (s[|s| - 1] as int - '0' as int)
  }

  lemma {:induction false} ValueOfDecimal(n: nat)
    ensures Value(Decimal(n)) == n
  {
    if n >= 10 {
      ValueOfDecimal(n / 10);
      assert Decimal(n)[..|Decimal(n)| - 1] == Decimal(n / 10);
    } else {
      assert Decimal(n)[..0] == "";
    }
  }

  /** base, base-2, base-3, ... */
  function Candidate(base: string, i: nat): string {
    if i <= 1 then base else base + "-" + Decimal(i)
  }

  lemma CandidatesDiffer(base: string, i: nat, j: nat)
    requires 1 <= i < j
    ensures Candidate(base, i) != Candidate(base, j)
  {
    if i > 1 && Candidate(base, i) == Candidate(base, j) {
      assert Decimal(i) == Candidate(base, i)[|base| + 1..];
      assert Decimal(j) == Candidate(base, j)[|base| + 1..];
      ValueOfDecimal(i);
      ValueOfDecimal(j);
    }
  }

  /** The first candidate is the name itself, a later one the name, a dash and its number. */
  lemma CandidateReads(base: string, i: nat)
    ensures i <= 1 ==> Candidate(base, i) == base
    ensures i > 1 ==> Candidate(base, i)[..|base|] == base && |Candidate(base, i)| > |base| + 1
                      && Candidate(base, i)[|base|] == '-' && Value(Candidate(base, i)[|base| + 1..]) == i
  {
    ValueOfDecimal(i);
    if i > 1 {
      assert Candidate(base, i)[|base| + 1..] == Decimal(i);
    }
  }

  method ProbeUnique(base: string, taken: set<string>) returns (r: Result<string, string>)
    ensures r.Ok? ==> exists i :: 1 <= i < 1000 && r.value == Candidate(base, i) && r.value !in taken
                                  && forall j | 1 <= j < i :: Candidate(base, j) in taken
    ensures r.Err? ==> forall j | 1 <= j < 1000 :: Candidate(base, j) in taken
  {
    var candidate := base;
    var n := 2;
    while true
      invariant 2 <= n <= MAX_ATTEMPTS && candidate == Candidate(base, n - 1)
      invariant forall j | 1 <= j < n - 1 :: Candidate(base, j) in taken
      decreases MAX_ATTEMPTS - n
    {
      if candidate !in taken {
        return Ok(candidate);
      }
      candidate := base + "-" + Decimal(n);
      n := n + 1;
      if n > MAX_ATTEMPTS {
        return Err("no free slug");
      }
    }
  }

  function Candidates(base: string, n: nat): set<string> {
    if n == 0 then {} else Candidates(base, n - 1) + {Candidate(base, n)}
  }

  lemma {:induction false} CandidatesCount(base: string, n: nat)
    ensures |Candidates(base, n)| == n
    ensures forall c | c in Candidates(base, n) :: exists i :: 1 <= i <= n && c == Candidate(base, i)
  {
    if n > 0 {
      CandidatesCount(base, n - 1);
      if Candidate(base, n) in Candidates(base, n - 1) {
        var i :| 1 <= i <= n - 1 && Candidate(base, n) == Candidate(base, i);
        CandidatesDiffer(base, i, n);
      }
    }
  }

  lemma SubsetIsSmaller(a: set<string>, b: set<string>)
    requires a <= b
    ensures |a| <= |b|
  {
    assert b == a + (b - a);
  }

  /** The 999 probed names are distinct, so probing can only fail when at least 999 names are
      taken. */
  lemma FailureNeedsManyNames(base: string, taken: set<string>)
    requires forall j | 1 <= j < MAX_ATTEMPTS :: Candidate(base, j) in taken
    ensures |taken| >= 999
  {
    CandidatesCount(base, 999);
    forall c | c in Candidates(base, 999)
      ensures c in taken
    {
      var i :| 1 <= i <= 999 && c == Candidate(base, i);
      assert i < MAX_ATTEMPTS;
    }
    SubsetIsSmaller(Candidates(base, 999), taken);
  }

  /** With fewer than 999 names taken a free one is always found. */
  method FreeName(desired: string, taken: set<string>) returns (r: Result<string, string>)
    ensures |taken| < 999 ==> r.Ok?
    ensures r.Ok? ==> r.value !in taken
    ensures SlugOf(desired) !in taken ==> r == Ok(SlugOf(desired))
  {
    var base := Slugify(desired);
    r := ProbeUnique(base, taken);
    if r.Err? {
      FailureNeedsManyNames(base, taken);
    }
    if base !in taken {
      assert Candidate(base, 1) == base;
    }
  }
}
