/** The string operations of the Rust standard library that the pipeline relies on, over
    ASCII white space. */
module Text {
  import opened Seqs
  import opened Wrappers

  predicate IsSpace(c: char) {
    c == ' ' || '\t' <= c <= '\r'
  }

  /** Blank, tab, line feed, vertical tab, form feed and carriage return. */
  lemma SpaceCodes(c: char)
    ensures IsSpace(c) <==> c as int in {32, 9, 10, 11, 12, 13}
  {
  }

  /** Where the white space that stands at `i` ends. */
  function SpaceEnd(s: string, i: nat := 0): (r: nat)
    requires i <= |s|
    ensures i <= r <= |s| && (r < |s| ==> !IsSpace(s[r])) && forall k | i <= k < r :: IsSpace(s[k])
    decreases |s| - i
  {
    if i < |s| && IsSpace(s[i]) then SpaceEnd(s, i + 1) else i
  }

  /** Where the white space that stands before `i` begins. */
  function SpaceStart(s: string, i: nat): (r: nat)
    requires i <= |s|
    ensures r <= i && (r > 0 ==> !IsSpace(s[r - 1])) && forall k | r <= k < i :: IsSpace(s[k])
  {
    if i > 0 && IsSpace(s[i - 1]) then SpaceStart(s, i - 1) else i
  }

  function TrimStart(s: string): (r: string) {
    s[SpaceEnd(s)..]
  }

  function TrimEnd(s: string): (r: string) {
    s[..SpaceStart(s, |s|)]
  }

  function Trim(s: string): string {
    TrimEnd(TrimStart(s))
  }

  /** The same for a run of one character. */
  function RunEnd(s: string, c: char, i: nat := 0): (r: nat)
    requires i <= |s|
    ensures i <= r <= |s| && (r < |s| ==> s[r] != c) && forall k | i <= k < r :: s[k] == c
    decreases |s| - i
  {
    if i < |s| && s[i] == c then RunEnd(s, c, i + 1) else i
  }

  function RunStart(s: string, c: char, i: nat): (r: nat)
    requires i <= |s|
    ensures r <= i && (r > 0 ==> s[r - 1] != c) && forall k | r <= k < i :: s[k] == c
  {
    if i > 0 && s[i - 1] == c then RunStart(s, c, i - 1) else i
  }

  /** `trim_start_matches(c)`, `trim_end_matches(c)` and `trim_matches(c)` of one character. */
  function TrimStartMatches(s: string, c: char): string {
    s[RunEnd(s, c)..]
  }

  function TrimEndMatches(s: string, c: char): string {
    s[..RunStart(s, c, |s|)]
  }

  function TrimMatches(s: string, c: char): string {
    TrimEndMatches(TrimStartMatches(s, c), c)
  }

  predicate StartsWith(s: string, p: string) {
    |p| <= |s| && s[..|p|] == p
  }

  function StripPrefix(s: string, p: string): Option<string> {
    if StartsWith(s, p) then Some(s[|p|..]) else None
  }

  /** The pieces between occurrences of `c`; never empty. */
  function Split(s: string, c: char): (r: seq<string>)
    ensures r != []
  {
    if s == "" then [""]
    else if s[0] == c then [""] + Split(s[1..], c)
    else var rest := Split(s[1..], c);
         [[s[0]] + rest[0]] + rest[1..]
  }

  function StripCr(s: string): string {
    if s != "" && s[|s| - 1] == '\r' then s[..|s| - 1] else s
  }

  /** `str::lines`: a line ends with "\n" or "\r\n"; a last line without "\n" keeps its "\r",
      and a final line end opens no new line. */
  function Lines(s: string): seq<string> {
    if s == "" then []
    else match FindSub(s, "\n")
         case None => [s]
         case Some(i) => [StripCr(s[..i])] + Lines(s[i + 1..])
  }

  function Join(parts: seq<string>, sep: string): string {
    if parts == [] then ""
    else if |parts| == 1 then parts[0]
    else parts[0] + sep + Join(parts[1..], sep)
  }

  function Flatten(parts: seq<string>): string {
    if parts == [] then "" else parts[0] + Flatten(parts[1..])
  }

  predicate OccursAt(s: string, p: string, k: int) {
    0 <= k <= |s| - |p| && s[k..k + |p|] == p
  }

  /** First occurrence of `p`, from position `from` on. */
  function FindSub(s: string, p: string, from: nat := 0): (r: Option<nat>)
    requires p != ""
    ensures r.Some? ==>
              && from <= r.value && OccursAt(s, p, r.value)
              && forall k | from <= k < r.value :: !OccursAt(s, p, k)
    ensures r.None? ==> forall k | from <= k :: !OccursAt(s, p, k)
    decreases |s| - from
  {
    if from + |p| > |s| then None
    else if OccursAt(s, p, from) then Some(from)
    else FindSub(s, p, from + 1)
  }

  /** What is found in a part is found in the whole. */
  lemma FoundInWhole(a: string, part: string, b: string, p: string)
    requires p != "" && FindSub(part, p).Some?
    ensures FindSub(a + part + b, p).Some?
  {
    var k, s := FindSub(part, p).value, a + part + b;
    assert s[|a| + k..|a| + k + |p|] == part[k..k + |p|];
    assert OccursAt(s, p, |a| + k);
  }

  lemma FindsItself(a: string, p: string, b: string)
    requires p != ""
    ensures FindSub(a + p + b, p).Some?
  {
    assert (a + p + b)[|a|..|a| + |p|] == p;
    assert OccursAt(a + p + b, p, |a|);
  }

  /** A text without the first character of `p` has no `p`. */
  lemma NoHeadNoOccurrence(s: string, p: string)
    requires p != "" && p[0] !in s
    ensures FindSub(s, p) == None
  {
    forall k
      ensures !OccursAt(s, p, k)
    {
      assert 0 <= k <= |s| - |p| ==> s[k..k + |p|][0] == s[k] && s[k] in s;
    }
  }

  // ---------- splitting and joining ----------

  lemma {:induction false} SplitWhole(a: string, c: char)
    requires c !in a
    ensures Split(a, c) == [a]
  {
    if a != "" {
      SplitWhole(a[1..], c);
      HeadTail(a);
    }
  }

  lemma {:induction false} SplitConcat(a: string, c: char, b: string)
    ensures Split(a + ([c] + b), c) == Split(a, c) + Split(b, c)
  {
    if a == "" {
      AppendEmpty([c] + b);
      assert ([c] + b)[1..] == b;
    } else {
      var first, more := Split(a[1..], c), Split(b, c);
      TailAppend(a, [c] + b);
      SplitConcat(a[1..], c, b);
      TailAppend(first, more);
      AppendAssociates([""], first, more);
      AppendAssociates([[a[0]] + first[0]], first[1..], more);
    }
  }

  lemma SplitFirst(a: string, c: char, rest: string)
    requires c !in a
    ensures Split(a + ([c] + rest), c) == [a] + Split(rest, c)
  {
    SplitConcat(a, c, rest);
    SplitWhole(a, c);
  }

  /** Joining undoes splitting. */
  lemma {:induction false} JoinSplit(s: string, c: char)
    ensures Join(Split(s, c), [c]) == s
  {
    if s != "" {
      var rest := Split(s[1..], c);
      JoinSplit(s[1..], c);
      HeadTail(s);
      if s[0] == c {
        assert ([""] + rest)[1..] == rest;
      } else {
        assert ([[s[0]] + rest[0]] + rest[1..])[1..] == rest[1..];
      }
    }
  }

  lemma {:induction false} JoinConcat(a: seq<string>, b: seq<string>, sep: string)
    requires a != [] && b != []
    ensures Join(a + b, sep) == Join(a, sep) + sep + Join(b, sep)
    decreases |a|
  {
    TailAppend(a, b);
    if |a| == 1 {
      AppendEmpty(b);
      assert a[1..] == [];
    } else {
      JoinConcat(a[1..], b, sep);
      AppendAssociates(a[0] + sep, Join(a[1..], sep) + sep, Join(b, sep));
      AppendAssociates(a[0] + sep, Join(a[1..], sep), sep);
    }
  }

  /** Splitting undoes joining, for parts free of the separator. */
  lemma {:induction false} SplitJoin(parts: seq<string>, c: char)
    requires parts != [] && forall p | p in parts :: c !in p
    ensures Split(Join(parts, [c]), c) == parts
    decreases |parts|
  {
    HeadTail(parts);
    if |parts| == 1 {
      SplitWhole(parts[0], c);
    } else {
      SplitJoin(parts[1..], c);
      SplitFirst(parts[0], c, Join(parts[1..], [c]));
      AppendAssociates(parts[0], [c], Join(parts[1..], [c]));
    }
  }

  function Space(q: string): string {
    " " + q
  }

  lemma SplitSpace(s: string)
    ensures Split(Space(s), ',') == [Space(Split(s, ',')[0])] + Split(s, ',')[1..]
  {
    TailAppend(" ", s);
    AppendEmpty(s);
    assert " "[1..] == "";
  }

  /** The same for a comma and a space: every piece but the first keeps the space. */
  lemma {:induction false} SplitSpacedJoin(parts: seq<string>)
    requires parts != [] && forall p | p in parts :: ',' !in p
    ensures Split(Join(parts, ", "), ',') == [parts[0]] + Map(Space, parts[1..])
    decreases |parts|
  {
    HeadTail(parts);
    if |parts| == 1 {
      SplitWhole(parts[0], ',');
    } else {
      SplitSpacedJoin(parts[1..]);
      SplitCommaSpace(parts[0], Join(parts[1..], ", "), parts[1], Map(Space, parts[1..][1..]));
      MapHead(Space, parts[1..]);
    }
  }

  lemma SplitCommaSpace(a: string, tail: string, first: string, more: seq<string>)
    requires ',' !in a && Split(tail, ',') == [first] + more
    ensures Split(a + ", " + tail, ',') == [a] + ([Space(first)] + more)
  {
    assert ", " + tail == [','] + Space(tail);
    AppendAssociates(a, ", ", tail);
    SplitFirst(a, ',', Space(tail));
    SplitSpace(tail);
    TailAppend([first], more);
    AppendEmpty(more);
  }

  lemma PrefixChar(s: string, p: string, i: nat)
    requires i < |p|
    ensures StartsWith(s, p) ==> s[i] == p[i]
  {
    assert |p| <= |s| ==> s[..|p|][i] == s[i];
  }

  lemma {:induction false} JoinLast(parts: seq<string>, last: string, sep: string)
    requires parts != []
    ensures Join(parts + [last], sep) == Join(parts, sep) + sep + last
  {
    TailAppend(parts, [last]);
    if |parts| == 1 {
      AppendEmpty([last]);
    } else {
      JoinLast(parts[1..], last, sep);
      var mid := Join(parts[1..], sep);
      assert parts[0] + sep + (mid + sep + last) == (parts[0] + sep + mid) + sep + last;
    }
  }

  lemma {:induction false} JoinLacks(parts: seq<string>, sep: string, c: char)
    requires c !in sep && forall p | p in parts :: c !in p
    ensures c !in Join(parts, sep)
  {
    if parts != [] {
      assert parts[0] in parts;
      JoinLacks(parts[1..], sep, c);
    }
  }

  // ---------- trimming ----------

  predicate AllSpace(s: string) {
    forall i | 0 <= i < |s| :: IsSpace(s[i])
  }

  /** What `trim_start` takes off. */
  function Lead(s: string): string {
    s[..|s| - |TrimStart(s)|]
  }

  lemma TrimStartSplits(s: string)
    ensures s == Lead(s) + TrimStart(s) && AllSpace(Lead(s))
    ensures TrimStart(s) != "" ==> !IsSpace(TrimStart(s)[0])
  {
    SplitAt(s, SpaceEnd(s));
  }

  lemma TrimStartOver(w: string, s: string)
    requires AllSpace(w)
    ensures TrimStart(w + s) == TrimStart(s)
  {
    var t, n := w + s, |w| + SpaceEnd(s);
    assert forall k | 0 <= k < |t| :: t[k] == if k < |w| then w[k] else s[k - |w|];
    SpaceEndIs(t, n);
    assert t[n..] == s[SpaceEnd(s)..];
  }

  /** Where white space at the head ends is the first place that is none. */
  lemma SpaceEndIs(s: string, n: nat)
    requires n <= |s| && (n < |s| ==> !IsSpace(s[n])) && forall k | 0 <= k < n :: IsSpace(s[k])
    ensures SpaceEnd(s) == n
  {
  }

  lemma SpaceStartIs(s: string, n: nat)
    requires n <= |s| && (n > 0 ==> !IsSpace(s[n - 1])) && forall k | n <= k < |s| :: IsSpace(s[k])
    ensures SpaceStart(s, |s|) == n
  {
  }

  lemma TrimEndOver(s: string, w: string)
    requires AllSpace(w)
    ensures TrimEnd(s + w) == TrimEnd(s)
  {
    var t, n := s + w, SpaceStart(s, |s|);
    assert forall k | 0 <= k < |t| :: t[k] == if k < |s| then s[k] else w[k - |s|];
    SpaceStartIs(t, n);
    assert t[..n] == s[..n];
  }

  lemma TrimStartAppend(t: string, w: string)
    requires AllSpace(w)
    ensures TrimStart(t + w) == if TrimStart(t) == "" then TrimStart(w) else TrimStart(t) + w
  {
    TrimStartSplits(t);
    var u := TrimStart(t);
    AppendAssociates(Lead(t), u, w);
    TrimStartOver(Lead(t), u + w);
    if u == "" {
      AppendEmpty(w);
    }
  }

  /** Trailing white space does not survive trimming. */
  lemma TrimIgnores(t: string, w: string)
    requires AllSpace(w)
    ensures Trim(t + w) == Trim(t)
  {
    TrimStartAppend(t, w);
    if TrimStart(t) == "" {
      TrimStartOver(w, "");
      AppendEmpty(w);
    } else {
      TrimEndOver(TrimStart(t), w);
    }
  }

  // ---------- lines ----------

  predicate OneLine(s: string) {
    '\n' !in s
  }

  lemma FirstBreak(a: string, rest: string)
    requires OneLine(a)
    ensures FindSub(a + "\n" + rest, "\n") == Some(|a|)
    ensures (a + "\n" + rest)[..|a|] == a && (a + "\n" + rest)[|a| + 1..] == rest
  {
    var s := a + "\n" + rest;
    assert OccursAt(s, "\n", |a|);
    forall k | 0 <= k < |a|
      ensures !OccursAt(s, "\n", k)
    {
      assert s[k..k + 1][0] == a[k];
    }
  }

  lemma NoBreak(a: string)
    requires OneLine(a)
    ensures FindSub(a, "\n") == None
  {
    forall k
      ensures !OccursAt(a, "\n", k)
    {
      if 0 <= k < |a| {
        assert a[k..k + 1][0] == a[k];
      }
    }
  }

  /** What is left of lines after they are joined and cut again: carriage returns before a
      break are lost, and so is an empty last line. */
  function Relined(ls: seq<string>): seq<string> {
    if ls == [] || ls == [""] then []
    else if |ls| == 1 then ls
    else [StripCr(ls[0])] + Relined(ls[1..])
  }

  lemma {:induction false} LinesOfJoin(ls: seq<string>)
    requires forall l | l in ls :: OneLine(l)
    ensures Lines(Join(ls, "\n")) == Relined(ls)
  {
    if |ls| == 1 {
      NoBreak(ls[0]);
    } else if |ls| > 1 {
      FirstBreak(ls[0], Join(ls[1..], "\n"));
      LinesOfJoin(ls[1..]);
    }
  }

  lemma {:induction false} LinesAreOneLine(s: string)
    ensures forall l | l in Lines(s) :: OneLine(l)
    decreases |s|
  {
    match FindSub(s, "\n")
    case None =>
      forall k | 0 <= k < |s|
        ensures s[k] != '\n'
      {
        assert s[k] == '\n' ==> OccursAt(s, "\n", k);
      }
    case Some(i) =>
      LinesAreOneLine(s[i + 1..]);
      forall k | 0 <= k < i
        ensures s[k] != '\n'
      {
        assert s[k] == '\n' ==> OccursAt(s, "\n", k);
      }
  }

  lemma FirstLineOpensText(s: string, p: string)
    requires Lines(s) != [] && StartsWith(Lines(s)[0], p)
    ensures StartsWith(s, p)
  {
    var line := Lines(s)[0];
    assert |line| <= |s| && s[..|line|] == line;
    assert s[..|line|][..|p|] == s[..|p|];
  }

  lemma OccursLater(head: string, t: string, p: string, k: nat)
    requires OccursAt(t, p, k)
    ensures OccursAt(head + t, p, |head| + k)
  {
    assert (head + t)[|head| + k..|head| + k + |p|] == t[k..k + |p|];
  }

  /** A line, other than the first, that opens with `p` shows up in the text after a break. */
  lemma {:induction false} LineShowsInText(s: string, i: nat, p: string)
    requires 0 < i < |Lines(s)| && StartsWith(Lines(s)[i], p)
    ensures exists k :: OccursAt(s, "\n" + p, k)
    decreases |s|
  {
    var b := FindSub(s, "\n").value;
    var t := s[b + 1..];
    assert Lines(s)[1..] == Lines(t);
    assert s == s[..b + 1] + t;
    if i == 1 {
      FirstLineOpensText(t, p);
      assert s[b..b + 1][0] == s[b];
      assert OccursAt("\n" + t, "\n" + p, 0);
      assert s == s[..b] + ("\n" + t);
      OccursLater(s[..b], "\n" + t, "\n" + p, 0);
    } else {
      LineShowsInText(t, i - 1, p);
      var k :| OccursAt(t, "\n" + p, k);
      OccursLater(s[..b + 1], t, "\n" + p, k);
    }
  }

  /** Trimming only drops characters. */
  lemma TrimMatchesShrinks(s: string, c: char)
    ensures forall x :: x in TrimMatches(s, c) ==> x in s
    ensures var t := TrimMatches(s, c); t != "" ==> t[0] != c && t[|t| - 1] != c
  {
    TrimStartMatchesSplits(s, c);
    TrimEndMatchesSplits(TrimStartMatches(s, c), c);
  }

  lemma TrimStartMatchesSplits(s: string, c: char)
    ensures var t := TrimStartMatches(s, c);
            && |t| <= |s| && s[|s| - |t|..] == t
            && (t != "" ==> t[0] != c)
            && (|t| < |s| ==> s[0] == c)
  {
  }

  lemma TrimEndMatchesSplits(s: string, c: char)
    ensures var t := TrimEndMatches(s, c);
            && |t| <= |s| && s[..|t|] == t
            && (t != "" ==> t[|t| - 1] != c)
            && (|t| < |s| ==> s[|s| - 1] == c)
  {
  }

  /** It keeps everything exactly if the character is at neither end. */
  lemma TrimMatchesLength(s: string, c: char)
    ensures |TrimMatches(s, c)| <= |s|
    ensures TrimMatches(s, c) == s <==> s == "" || (s[0] != c && s[|s| - 1] != c)
    ensures |TrimMatches(s, c)| == |s| <==> TrimMatches(s, c) == s
  {
    var t := TrimStartMatches(s, c);
    TrimStartMatchesSplits(s, c);
    TrimEndMatchesSplits(t, c);
    if |t| == |s| {
      assert t == s;
    }
  }

  lemma TrimShrinks(s: string)
    ensures forall x :: x in Trim(s) ==> x in s
  {
  }

  lemma {:induction false} SplitPieces(s: string, c: char)
    ensures forall p, x | p in Split(s, c) && x in p :: x in s && x != c
  {
    if s != "" {
      SplitPieces(s[1..], c);
    }
  }

  /** The value after `key` at the head of a line, trimmed. */
  function Field(line: string, key: string): Option<string> {
    match StripPrefix(TrimStart(line), key)
    case None => None
    case Some(value) => Some(Trim(value))
  }

  lemma PrefixIgnoresCr(u: string, key: string)
    requires '\r' !in key
    ensures StartsWith(u + "\r", key) <==> StartsWith(u, key)
    ensures StartsWith(u, key) ==> (u + "\r")[|key|..] == u[|key|..] + "\r"
  {
    if |key| <= |u| {
      assert (u + "\r")[..|key|] == u[..|key|];
    } else if |key| == |u| + 1 {
      assert key[|u|] in key;
      assert (u + "\r")[..|key|][|u|] == '\r';
    }
  }

  lemma CrBack(line: string)
    ensures StripCr(line) == line || line == StripCr(line) + "\r"
  {
  }

  /** No field sees the carriage return of a line break. */
  lemma FieldIgnoresCr(line: string, key: string)
    requires '\r' !in key && key != ""
    ensures Field(StripCr(line), key) == Field(line, key)
  {
    var t := StripCr(line);
    CrBack(line);
    if t != line {
      TrimStartAppend(t, "\r");
      var u := TrimStart(t);
      if u == "" {
        TrimStartOver("\r", "");
        AppendEmpty("\r");
      } else {
        PrefixIgnoresCr(u, key);
        if StartsWith(u, key) {
          TrimIgnores(u[|key|..], "\r");
        }
      }
    }
  }

  /** Nor does the key of a line. */
  lemma KeyIgnoresCr(line: string, key: string)
    requires '\r' !in key && key != ""
    ensures StartsWith(TrimStart(StripCr(line)), key) <==> StartsWith(TrimStart(line), key)
  {
    FieldIgnoresCr(line, key);
  }

  lemma FieldOf(lead: string, key: string, value: string)
    requires AllSpace(lead) && key != "" && !IsSpace(key[0])
    ensures Field(lead + (key + value), key) == Some(Trim(value))
  {
    TrimStartOver(lead, key + value);
    assert (key + value)[..|key|] == key && (key + value)[|key|..] == value;
  }

  /** What ignores line ends reads joined and recut lines as the lines themselves. */
  lemma {:induction false} RelinedReadsTheSame<U>(f: string -> seq<U>, ls: seq<string>)
    requires f("") == [] && forall l :: f(StripCr(l)) == f(l)
    ensures FlatMap(f, Relined(ls)) == FlatMap(f, ls)
  {
    if ls == [""] {
      AppendEmpty(FlatMap(f, []));
    } else if |ls| > 1 {
      RelinedReadsTheSame(f, ls[1..]);
      TailAppend([StripCr(ls[0])], Relined(ls[1..]));
    }
  }

  lemma {:induction false} RelinedFoldsTheSame<S(!new)>(f: (S, string) -> S, s: S, ls: seq<string>)
    requires forall m :: f(m, "") == m
    requires forall m, l :: f(m, StripCr(l)) == f(m, l)
    ensures FoldLeft(f, s, Relined(ls)) == FoldLeft(f, s, ls)
  {
    if |ls| > 1 {
      RelinedFoldsTheSame(f, f(s, ls[0]), ls[1..]);
      TailAppend([StripCr(ls[0])], Relined(ls[1..]));
      AppendEmpty(Relined(ls[1..]));
    }
  }

  lemma TrimEndShape(s: string)
    ensures var t := TrimEnd(s); t != "" ==> t[0] == s[0] && !IsSpace(t[|t| - 1])
  {
  }

  lemma TrimIsIdentity(s: string)
    requires s != "" && !IsSpace(s[0]) && !IsSpace(s[|s| - 1])
    ensures Trim(s) == s
  {
  }

  lemma TrimTwice(s: string)
    ensures Trim(Trim(s)) == Trim(s)
  {
    var u, t := TrimStart(s), Trim(s);
    TrimStartSplits(s);
    TrimEndShape(u);
    if t != "" {
      assert t[0] == u[0];
      TrimIsIdentity(t);
    }
  }

  lemma SpaceIsTrimmed(q: string)
    ensures Trim(Space(q)) == Trim(q)
  {
    TrimStartOver(" ", q);
  }

  lemma SpaceTrimmed(s: string)
    requires s != "" && !IsSpace(s[0]) && !IsSpace(s[|s| - 1])
    ensures Trim(Space(s)) == s
  {
    TrimStartOver(" ", s);
  }

  // ---------- wrapping in one character ----------

  lemma StartOfWrapped(s: string, c: char)
    ensures TrimStartMatches(s + [c], c) ==
              if TrimStartMatches(s, c) == "" then "" else TrimStartMatches(s, c) + [c]
  {
    var n := RunEnd(s, c);
    DropAppend(s, [c], n);
    RunEndIs(s + [c], c, if n == |s| then n + 1 else n);
  }

  lemma RunEndIs(s: string, c: char, n: nat)
    requires n <= |s| && (n < |s| ==> s[n] != c) && forall k | 0 <= k < n :: s[k] == c
    ensures RunEnd(s, c) == n
  {
  }

  lemma RunStartIs(s: string, c: char, n: nat)
    requires n <= |s| && (n > 0 ==> s[n - 1] != c) && forall k | n <= k < |s| :: s[k] == c
    ensures RunStart(s, c, |s|) == n
  {
  }

  lemma RunGrowsAtHead(s: string, c: char)
    ensures TrimStartMatches([c] + s, c) == TrimStartMatches(s, c)
  {
    var n := RunEnd(s, c);
    assert forall k | 0 < k <= |s| :: ([c] + s)[k] == s[k - 1];
    RunEndIs([c] + s, c, n + 1);
    DropPast([c], s, n);
  }

  lemma RunGrowsAtEnd(s: string, c: char)
    ensures TrimEndMatches(s + [c], c) == TrimEndMatches(s, c)
  {
    var n := RunStart(s, c, |s|);
    assert forall k | 0 <= k < |s| :: (s + [c])[k] == s[k];
    RunStartIs(s + [c], c, n);
    DropAppend(s, [c], n);
  }

  /** Taking a wrapping off takes along whatever of the same character was inside its ends. */
  lemma WrappingComesOff(s: string, c: char)
    ensures TrimMatches([c] + s + [c], c) == TrimMatches(s, c)
  {
    AppendAssociates([c], s, [c]);
    RunGrowsAtHead(s + [c], c);
    StartOfWrapped(s, c);
    RunGrowsAtEnd(TrimStartMatches(s, c), c);
  }

  lemma NothingToTrim(s: string, c: char)
    requires s == "" || (s[0] != c && s[|s| - 1] != c)
    ensures TrimMatches(s, c) == s
  {
  }

  /** Lines joined with a break after the last one too. */
  lemma {:induction false} LinesOfClosedJoin(ls: seq<string>)
    requires forall l | l in ls :: OneLine(l)
    ensures Lines(Join(ls, "\n") + "\n") == if ls == [] then [""] else Map(StripCr, ls)
  {
    if |ls| <= 1 {
      var l := if ls == [] then "" else ls[0];
      FirstBreak(l, "");
      AppendEmpty(l + "\n");
      assert Join(ls, "\n") == l;
      assert l + "\n" != "";
    } else {
      var tail := Join(ls[1..], "\n");
      AppendAssociates(ls[0] + "\n", tail, "\n");
      FirstBreak(ls[0], tail + "\n");
      LinesOfClosedJoin(ls[1..]);
      MapHead(StripCr, ls);
    }
  }

  // ---------- order ----------

  /** Character by character, a proper prefix coming first. */
  predicate Less(a: string, b: string) {
    b != "" && (a == "" || a[0] < b[0] || (a[0] == b[0] && Less(a[1..], b[1..])))
  }

  lemma {:induction false} LessIsTotal(a: string, b: string)
    ensures a == b || Less(a, b) || Less(b, a)
    ensures !(Less(a, b) && Less(b, a)) && !Less(a, a)
  {
    if a != "" {
      LessIsTotal(a[1..], a[1..]);
      HeadTail(a);
      if b != "" {
        HeadTail(b);
        LessIsTotal(a[1..], b[1..]);
      }
    }
  }

  lemma {:induction false} LessIsTransitive(a: string, b: string, c: string)
    requires Less(a, b) && Less(b, c)
    ensures Less(a, c)
  {
    if a != "" {
      if a[0] == b[0] == c[0] {
        LessIsTransitive(a[1..], b[1..], c[1..]);
      }
    }
  }

  predicate Ascending(s: seq<string>) {
    forall i, j | 0 <= i < j < |s| :: Less(s[i], s[j])
  }

  function InsertAscending(s: seq<string>, x: string): seq<string> {
    if s == [] || Less(x, s[0]) then [x] + s else [s[0]] + InsertAscending(s[1..], x)
  }

  lemma {:induction false} InsertAscendingAdds(s: seq<string>, x: string)
    ensures Elements(InsertAscending(s, x)) == Elements(s) + {x}
  {
    if s == [] || Less(x, s[0]) {
      ElementsConcat([x], s);
    } else {
      InsertAscendingAdds(s[1..], x);
      HeadTail(s);
      ElementsConcat([s[0]], s[1..]);
      ElementsConcat([s[0]], InsertAscending(s[1..], x));
    }
  }

  lemma {:induction false} InsertStaysAscending(s: seq<string>, x: string)
    requires Ascending(s) && x !in s
    ensures Ascending(InsertAscending(s, x))
  {
    if s != [] {
      if Less(x, s[0]) {
        forall j | 0 < j < |s|
          ensures Less(x, s[j])
        {
          LessIsTransitive(x, s[0], s[j]);
        }
      } else {
        LessIsTotal(s[0], x);
        InsertStaysAscending(s[1..], x);
        InsertAscendingAdds(s[1..], x);
        var rest := InsertAscending(s[1..], x);
        forall j | 0 <= j < |rest|
          ensures Less(s[0], rest[j])
        {
          assert rest[j] in Elements(rest);
        }
      }
    }
  }

  lemma AscendingIsDistinct(s: seq<string>)
    requires Ascending(s)
    ensures NoRepeats(s)
  {
    forall i, j | 0 <= i < j < |s|
      ensures s[i] != s[j]
    {
      LessIsTotal(s[i], s[j]);
    }
  }
}
