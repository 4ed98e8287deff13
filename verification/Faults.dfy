/** What the code lets happen, each at an input: a removal cut short after its commit, a removal that
    breaks links, a page that outgrows the cap, and paths that are not the names of what they name. */
module Faults {
  import opened Agent
  import opened Closure
  import opened Frontmatter
  import opened Index
  import opened Paths
  import opened Remove
  import opened Samples
  import opened Seqs
  import opened Text
  import opened Validator
  import opened Wiki
  import opened Wikilinks
  import opened Wrappers

  const PATH := "a.md"
  const OTHER := "b.md"
  const HIDDEN := ".git.md"
  const SOURCE := "s"

  // ---------- names ----------

  predicate NoTwoDots(s: string) {
    forall i | 0 <= i < |s| - 1 :: s[i] != '.' || s[i + 1] != '.'
  }

  /** A name of a markdown file at the root. */
  predicate IsName(name: string) {
    IsMarkdown(name) && '/' !in name && name != ".md" && NoTwoDots(name)
  }

  lemma TheseAreNames()
    ensures IsName(PATH) && IsName(OTHER) && IsName(HIDDEN) && IsName(GUIDE)
  {
    assert PATH[|PATH| - 3..] == ".md" && OTHER[|OTHER| - 3..] == ".md";
    assert HIDDEN[|HIDDEN| - 3..] == ".md" && GUIDE[|GUIDE| - 3..] == ".md";
  }

  lemma NoParents(s: string)
    requires NoTwoDots(s)
    ensures FindSub(s, "..").None?
  {
    forall k
      ensures !OccursAt(s, "..", k)
    {
      if 0 <= k <= |s| - 2 {
        assert s[k..k + 2][0] == s[k] && s[k..k + 2][1] == s[k + 1];
      }
    }
  }

  lemma NameIsListed(name: string)
    requires IsName(name)
    ensures IsComponent(name) && name != ".." && Resolve(name) == name && IsPage(name)
  {
    SuffixChars(name, "/.md");
    assert '/' in "/.md";
    PlainNameResolves(name);
  }

  lemma PlainPath(name: string)
    requires IsName(name) && !StartsWith(name, ".git") && name != GUIDE
    ensures IsAllowed(name) && IsSafe(name) && Resolve(name) == name
  {
    NameIsListed(name);
    PlainNameIsSafe(name);
    NoParents(name);
    PrefixChar(name, "/", 0);
  }

  function Dotted(name: string): string {
    "./" + name
  }

  lemma DottedResolves(name: string)
    requires IsName(name)
    ensures IsSafe(Dotted(name)) && Resolve(Dotted(name)) == name
  {
    var path := Dotted(name);
    NameIsListed(name);
    DotSlash(name);
    SplitWhole(name, '/');
    assert path[0] == '.' && path[1] == '/';
    PrefixChar(path, ".git", 1);
    assert TrimStartMatches(path, '/') == path;
  }

  lemma DottedIsAllowed(name: string)
    requires IsName(name)
    ensures IsAllowed(Dotted(name)) && !IsSystem(Dotted(name)) && Dotted(name) != name
  {
    var path := Dotted(name);
    DottedHasNoParents(name);
    assert path[|path| - 3..] == name[|name| - 3..];
    assert path[0] == '.' && path[1] == '/';
    HeadDecides(path, "/");
    HeadDecides(path, "_meta/");
    assert '/' in path;
  }

  lemma DottedHasNoParents(name: string)
    requires NoTwoDots(name)
    ensures FindSub(Dotted(name), "..").None?
  {
    var path := Dotted(name);
    assert path[0] == '.' && path[1] == '/';
    assert forall i | 2 <= i < |path| :: path[i] == name[i - 2];
    NoParents(path);
  }

  /** A name behind `./` passes every check, whatever the name. */
  lemma DottedPath(name: string)
    requires IsName(name)
    ensures var path := Dotted(name);
            IsAllowed(path) && IsSafe(path) && Resolve(path) == name && path != name && !IsSystem(path)
  {
    DottedResolves(name);
    DottedIsAllowed(name);
  }

  // ---------- a removal cut short ----------

  const IDS := KEY + Space(SOURCE)

  /** A lone id needs no brackets and no quotes. */
  lemma BareIdsLine(id: string)
    requires Frontmatter.Readable(id) && !QuoteAtEnd(id) && !IsSpace(id[0]) && !IsSpace(id[|id| - 1])
    requires id[0] != '[' && id[|id| - 1] != ']'
    ensures IdsOfLine(KEY + Space(id)) == [id]
  {
    AppendEmpty(KEY + Space(id));
    NewLineField("", KEY, id);
    SplitWhole(id, ',');
    assert ListPieces(id) == [id];
    TrimIsIdentity(id);
    NothingToTrim(id, '"');
    NothingToTrim(id, '\'');
    FlatMapOne(IdOf, id);
  }

  /** A page that cites one source and links to nothing. */
  function Citing(): string {
    Sample([IDS], "")
  }

  lemma IdsArePlain()
    ensures AllPlain([IDS]) && IdsOfLine(IDS) == [SOURCE]
  {
    assert IDS[0] == 's';
    PlainWithHead(IDS);
    BareIdsLine(SOURCE);
  }

  lemma CitingReads()
    ensures AllPlain([IDS]) && ExtractIds(Citing()) == [SOURCE] && Links("") == []
  {
    IdsArePlain();
    SampleIds([IDS], "");
    FlatMapOne(IdsOfLine, IDS);
    NoOpening("");
  }

  lemma CitingLength()
    ensures |Citing()| == 39
  {
    JoinLast(LinesOf([]), IDS, "\n");
    BaseLength();
    assert LinesOf([IDS]) == LinesOf([]) + [IDS];
  }

  /** The bundle that adds it to an empty wiki. */
  function FirstBundle(): seq<Op> {
    [Create(PATH, Citing())]
  }

  lemma UniverseOfOne(path: string, content: string)
    ensures PostUniverse(Pages(map[]), [Create(path, content)]) == {path}
  {
    FoldOne(AddOp, Pages(map[]), Create(path, content));
  }

  lemma OneCreateIsValid(path: string, content: string)
    requires WellFormed(content, {path})
    ensures BundleErrors(map[], [Create(path, content)]) == []
  {
    var op := Create(path, content);
    UniverseOfOne(path, content);
    PassesExactly(map[], [op]);
    assert forall o | o in [op] :: o == op;
  }

  lemma OneWriteIsAccepted(op: Op)
    requires Writes(op) && IsSafe(op.path) && |op.content| <= PAGE_CAP
    ensures BundleError([op]).None?
  {
    AtFaultOne(op);
    RefusedForSome([op]);
    assert TotalSize([op]) == |op.content|;
  }

  lemma OneCreatePasses(path: string, content: string)
    requires WellFormed(content, {path}) && IsSafe(path) && |content| <= PAGE_CAP
    ensures var ops := [Create(path, content)];
            && BundleErrors(map[], ops) == [] && IsCommitted(map[], ops)
            && Apply(map[], ops) == map[Resolve(path) := content]
  {
    OneCreateIsValid(path, content);
    OneWriteIsAccepted(Create(path, content));
    OneCreateApplies(path, content);
  }

  lemma OneCreateApplies(path: string, content: string)
    ensures Apply(map[], [Create(path, content)]) == map[Resolve(path) := content] != map[]
  {
    FoldOne(ApplyOp, map[], Create(path, content));
    assert Resolve(path) in map[Resolve(path) := content];
  }

  lemma FirstBundlePasses()
    ensures BundleErrors(map[], FirstBundle()) == [] && IsCommitted(map[], FirstBundle())
    ensures Apply(map[], FirstBundle()) == map[PATH := Citing()]
  {
    CitingReads();
    SampleIsWellFormed([IDS], "", {PATH});
    PathIsPlain();
    CitingLength();
    OneCreatePasses(PATH, Citing());
  }

  lemma PathIsPlain()
    ensures IsAllowed(PATH) && IsSafe(PATH) && Resolve(PATH) == PATH && IsPage(PATH) && !IsSystem(PATH)
  {
    TheseAreNames();
    assert PATH[0] == 'a';
    HeadDecides(PATH, ".git");
    HeadDecides(PATH, "_meta/");
    PlainPath(PATH);
    NameIsListed(PATH);
  }

  /** A removal whose worker dies after the commit, or whose row deletions fail: the failures are
      only logged, and the retry finds no page to delete. */
  function CutShort<R>(s: State<R>, source: string, entry: string): State<R> {
    CommitTo(s, FilesLeft(s.files, source, entry))
  }

  lemma StaleRowStays<R>(project: Projector<R>, s: State<R>, path: string, reached: set<string>)
    requires Counts(path) && path !in s.files && path in s.rows
    ensures path in RebuildStep(project, s, reached).rows
    ensures !Agreement(project, s.files, RebuildStep(project, s, reached).rows)
  {
    assert path in RebuildStep(project, s, reached).rows;
    assert !AgreesAt(project, s.files, RebuildStep(project, s, reached).rows, path);
  }

  /** The rows of the pages it deleted stay, and no rebuild clears them. */
  lemma StaleRowSurvives<R>(project: Projector<R>, s: State<R>, source: string, entry: string, path: string,
                            reached: set<string>)
    requires Agreement(project, s.files, s.rows) && Counts(path) && path in ToDelete(s.files, source)
    ensures var after := RebuildStep(project, CutShort(s, source, entry), reached);
            path !in after.files && path in after.rows && !Agreement(project, after.files, after.rows)
  {
    DeletedIsGone(s.files, source, entry);
    assert AgreesAt(project, s.files, s.rows, path);
    StaleRowStays(project, CutShort(s, source, entry), path, reached);
  }

  lemma NothingRemains(content: string, source: string)
    requires ExtractIds(content) == [source]
    ensures Remaining(content, source) == []
  {
    RemainingIds(content, source);
    NoElements(Remaining(content, source));
  }

  lemma SoleSourceIsDeleted(files: Files, source: string, path: string)
    requires path in files && Counts(path) && ExtractIds(files[path]) == [source]
    ensures path in ToDelete(files, source)
  {
    NothingRemains(files[path], source);
    assert source in ExtractIds(files[path]);
  }

  lemma OneIngest<R>(project: Projector<R>, ops: seq<Op>)
    requires ops != [] && BundleErrors(map[], ops) == [] && IsCommitted(map[], ops)
    ensures Run(project, State(map[], map[], map[]), [Job.Ingest(ops)]).files == Apply(map[], ops)
  {
    var jobs := [Job.Ingest(ops)];
    assert jobs[..0] == [] && jobs[|jobs| - 1] == jobs[0];
  }

  /** An ingest of one readable page leaves index and wiki in agreement. */
  lemma OneIngestAgrees<R>(project: Projector<R>, ops: seq<Op>, path: string, content: string)
    requires ops != [] && BundleErrors(map[], ops) == [] && IsCommitted(map[], ops) && WritesTidily(ops)
    requires Apply(map[], ops) == map[path := content] && IsSafe(path)
    ensures var s := Run(project, State(map[], map[], map[]), [Job.Ingest(ops)]);
            s.files == map[path := content] && Agreement(project, s.files, s.rows)
  {
    OneIngest(project, ops);
    IndexAgreement(project, map[], [Job.Ingest(ops)]);
  }

  lemma OneIsTidy(path: string, content: string)
    requires IsPage(Resolve(path))
    ensures WritesTidily([Create(path, content)])
  {
  }

  lemma PathIsDeleted()
    ensures PATH in ToDelete(map[PATH := Citing()], SOURCE)
  {
    PathIsPlain();
    CitingReads();
    SoleSourceIsDeleted(map[PATH := Citing()], SOURCE, PATH);
  }

  /** From an empty wiki: one page ingested, its only source removed, the removal cut short, the
      index rebuilt. The rows and the pages disagree. */
  lemma StaleRowIsReachable<R>(project: Projector<R>, entry: string, reached: set<string>)
    ensures var s := Run(project, State(map[], map[], map[]), [Job.Ingest(FirstBundle())]);
            var after := RebuildStep(project, CutShort(s, SOURCE, entry), reached);
            && Agreement(project, s.files, s.rows)
            && PATH !in after.files && PATH in after.rows && !Agreement(project, after.files, after.rows)
  {
    var s := Run(project, State(map[], map[], map[]), [Job.Ingest(FirstBundle())]);
    FirstBundlePasses();
    PathIsPlain();
    OneIsTidy(PATH, Citing());
    OneIngestAgrees(project, FirstBundle(), PATH, Citing());
    PathIsDeleted();
    StaleRowSurvives(project, s, SOURCE, entry, PATH, reached);
  }

  // ---------- a removal that leaves a link behind ----------

  lemma ClosedBy(files: Files, pages: set<string>)
    requires Pages(files) == pages && forall p | p in pages :: WellFormed(files[p], pages)
    ensures Closed(files)
  {
  }

  lemma PairIsClosed(files: Files, a: string, b: string)
    requires files.Keys == {a, b} && IsPage(a) && IsPage(b)
    requires WellFormed(files[a], {a, b}) && WellFormed(files[b], {a, b})
    ensures Closed(files)
  {
    PairPages(files, a, b);
    ClosedBy(files, {a, b});
  }

  lemma PairPages(files: Files, a: string, b: string)
    requires files.Keys == {a, b} && IsPage(a) && IsPage(b)
    ensures Pages(files) == {a, b}
  {
  }

  lemma CitesNothing(files: Files, path: string, source: string)
    requires path in files && ExtractIds(files[path]) == []
    ensures Judged(files, source, path) == Keep
  {
  }

  /** Every path of either set is a path of the tree. */
  lemma VerdictsAreOfFiles(files: Files, source: string)
    ensures ToDelete(files, source) <= files.Keys && ToPatch(files, source) <= files.Keys
    ensures forall p | Judged(files, source, p) == Keep :: p !in ToDelete(files, source) && p !in ToPatch(files, source)
    ensures ToDelete(files, source) !! ToPatch(files, source)
  {
  }

  lemma PairJudged(files: Files, a: string, b: string, source: string)
    requires files.Keys == {a, b} && Counts(a)
    requires ExtractIds(files[a]) == [source] && ExtractIds(files[b]) == []
    ensures a in ToDelete(files, source) && b !in ToDelete(files, source) && ToPatch(files, source) == {}
  {
    SoleSourceIsDeleted(files, source, a);
    CitesNothing(files, b, source);
    VerdictsAreOfFiles(files, source);
  }

  /** A wiki of two pages, one of which cites only the source and the other links to it: closed, and
      not closed once the source is removed. */
  lemma RemovalBreaksClosure(files: Files, a: string, b: string, source: string, entry: string)
    requires files.Keys == {a, b} && Counts(a) && Counts(b) && Closed(files)
    requires ExtractIds(files[a]) == [source] && ExtractIds(files[b]) == []
    requires a in Links(files[b]) && PathOnly(a) == a
    ensures !Closed(FilesLeft(files, source, entry))
  {
    PairJudged(files, a, b, source);
    RemovalKeepsClosedExactly(files, source, entry);
    assert a in LinksKept(files, source, b);
  }

  lemma OtherIsPlain()
    ensures OTHER != PATH && IsPage(OTHER) && !IsSystem(OTHER)
  {
    TheseAreNames();
    assert OTHER[0] == 'b' && PATH[0] == 'a';
    HeadDecides(OTHER, "_meta/");
    NameIsListed(OTHER);
  }

  lemma LinkingReads()
    ensures Links(LinkTo(PATH)) == [PATH] && PathOnly(PATH) == PATH
    ensures ExtractIds(Sample([], LinkTo(PATH))) == [] && Links(Sample([], LinkTo(PATH))) == [PATH]
  {
    LinkToLinks(PATH);
    SampleIds([], LinkTo(PATH));
    SampleLinks([], LinkTo(PATH));
  }

  lemma PairOf(a: string, b: string, x: string, y: string) returns (files: Files)
    requires a != b
    ensures files == map[a := x, b := y] && files.Keys == {a, b} && files[a] == x && files[b] == y
  {
    files := map[a := x, b := y];
  }

  lemma PairOnDisk(files: Files, a: string, b: string)
    requires files.Keys == {a, b} && Resolve(a) == a && Resolve(b) == b
    ensures OnDisk(files)
  {
  }

  lemma SuchAPair(a: string, b: string, x: string, y: string, source: string, entry: string) returns (files: Files)
    requires a != b && Counts(a) && Counts(b) && Resolve(a) == a && Resolve(b) == b
    requires WellFormed(x, {a, b}) && WellFormed(y, {a, b})
    requires ExtractIds(x) == [source] && ExtractIds(y) == [] && a in Links(y) && PathOnly(a) == a
    ensures OnDisk(files) && Closed(files) && !Closed(FilesLeft(files, source, entry))
  {
    files := PairOf(a, b, x, y);
    PairIsClosed(files, a, b);
    PairOnDisk(files, a, b);
    RemovalBreaksClosure(files, a, b, source, entry);
  }

  lemma CitingIsWellFormed()
    ensures WellFormed(Citing(), {PATH, OTHER}) && ExtractIds(Citing()) == [SOURCE]
  {
    CitingReads();
    SampleIsWellFormed([IDS], "", {PATH, OTHER});
  }

  function Linking(): string {
    Sample([], LinkTo(PATH))
  }

  lemma LinkingIsWellFormed()
    ensures WellFormed(Linking(), {PATH, OTHER}) && ExtractIds(Linking()) == []
    ensures PATH in Links(Linking()) && PathOnly(PATH) == PATH
  {
    LinkingReads();
    SampleIsWellFormed([], LinkTo(PATH), {PATH, OTHER});
  }

  lemma TheseCount()
    ensures PATH != OTHER && Counts(PATH) && Counts(OTHER) && Resolve(PATH) == PATH && Resolve(OTHER) == OTHER
  {
    TheseAreNames();
    PathIsPlain();
    OtherIsPlain();
    NameIsListed(OTHER);
  }

  /** There is such a wiki. */
  lemma RemovalCanBreakClosure(entry: string) returns (files: Files)
    ensures OnDisk(files) && Closed(files) && !Closed(FilesLeft(files, SOURCE, entry))
  {
    TheseCount();
    CitingIsWellFormed();
    LinkingIsWellFormed();
    files := SuchAPair(PATH, OTHER, Citing(), Linking(), SOURCE, entry);
  }

  // ---------- the completion in use ----------

  /** What completion adds to a sample. */
  function Stamps(id: string, now: string): seq<string> {
    ["id: " + id, "created_at: " + now, "updated_at: " + now]
  }

  predicate PlainStamp(s: string) {
    OneLine(s) && '[' !in s
  }

  lemma StampsArePlain(id: string, now: string)
    requires PlainStamp(id) && PlainStamp(now)
    ensures AllPlain(Stamps(id, now))
  {
    PlainWithHead("id: " + id);
    PlainWithHead("created_at: " + now);
    PlainWithHead("updated_at: " + now);
  }

  /** The frontmatter of a sample without further lines. */
  const BASE := "\n" + TITLE + "\n" + KIND

  lemma BaseLacksFields()
    ensures FindSub(BASE, "id:").None? && FindSub(BASE, "created_at:").None? && FindSub(BASE, "updated_at:").None?
  {
    BaseLetters();
    NoHeadNoOccurrence(BASE, "created_at:");
    NoHeadNoOccurrence(BASE, "updated_at:");
    forall k
      ensures !OccursAt(BASE, "id:", k)
    {
      if OccursAt(BASE, "id:", k) {
        assert BASE[k..k + 3][0] == BASE[k] && BASE[k..k + 3][1] == BASE[k + 1];
        NoIdInBase(k);
      }
    }
  }

  lemma BaseLetters()
    ensures 'c' !in BASE && 'u' !in BASE
  {
    assert BASE == "\ntitle: t\nkind: k";
  }

  lemma NoIdInBase(k: nat)
    requires k + 1 < |BASE|
    ensures BASE[k] != 'i' || BASE[k + 1] != 'd'
  {
    assert BASE == "\ntitle: t\nkind: k";
  }

  lemma StampedLines(id: string, now: string)
    ensures Join(LinesOf(Stamps(id, now)), "\n") ==
              BASE + ("\nid: " + id) + ("\ncreated_at: " + now) + ("\nupdated_at: " + now)
  {
    var base := LinesOf([]);
    var a, b, c := "id: " + id, "created_at: " + now, "updated_at: " + now;
    BaseLength();
    JoinLast(base, a, "\n");
    JoinLast(base + [a], b, "\n");
    JoinLast(base + [a] + [b], c, "\n");
    assert LinesOf(Stamps(id, now)) == base + [a] + [b] + [c];
    BreakBefore(BASE, "id: ", id);
    BreakBefore(BASE + ("\nid: " + id), "created_at: ", now);
    BreakBefore(BASE + ("\nid: " + id) + ("\ncreated_at: " + now), "updated_at: ", now);
    assert "\n" + "id: " == "\nid: " && "\n" + "created_at: " == "\ncreated_at: ";
    assert "\n" + "updated_at: " == "\nupdated_at: ";
  }

  lemma BreakBefore(text: string, key: string, value: string)
    ensures text + "\n" + (key + value) == text + ("\n" + key + value)
  {
  }

  lemma CompletedFields(id: string, now: string, content: string, fm: string, rest: string)
    requires TrimStart(content) == content && StartsWith(content, "---")
    requires Frontmatter.Cut(content, "---", "\n---") == Some((fm, rest))
    requires FindSub(fm, "id:").None? && FindSub(fm, "created_at:").None? && FindSub(fm, "updated_at:").None?
    ensures Completed(id, now, content) ==
              "---" + fm + ("\nid: " + id) + ("\ncreated_at: " + now) + ("\nupdated_at: " + now) + rest
  {
    Flattened("---", fm, "\nid: " + id, "\ncreated_at: " + now, "\nupdated_at: " + now, rest);
  }

  lemma Flattened(open: string, fm: string, a: string, b: string, c: string, rest: string)
    ensures open + (fm + (a + b + c) + rest) == open + fm + a + b + c + rest
  {
  }

  lemma CutOfFrame(content: string)
    requires Frame(content).Some? && content != "" && !IsSpace(content[0])
    ensures var p := Frame(content).value;
            TrimStart(content) == content && StartsWith(content, "---")
            && Frontmatter.Cut(content, "---", "\n---") == Some((p.fm, p.rest))
  {
  }

  lemma SampleCut(body: string)
    ensures var content := Sample([], body);
            && TrimStart(content) == content && StartsWith(content, "---")
            && Frontmatter.Cut(content, "---", "\n---") == Some((BASE, AFTER + body))
  {
    LinesArePlain([]);
    PageOfReads(LinesOf([]), body);
    BaseLength();
    SampleHead(body);
    CutOfFrame(Sample([], body));
  }

  lemma SampleHead(body: string)
    ensures Sample([], body) != "" && Sample([], body)[0] == '-'
  {
  }

  lemma FramedAgain(fm: string, a: string, b: string, c: string, rest: string)
    ensures "---" + fm + a + b + c + rest == Reframe(Page("", fm + a + b + c, rest))
  {
  }

  /** A sample is completed to the sample with the three lines. */
  lemma CompletedSample(id: string, now: string, body: string)
    ensures Completed(id, now, Sample([], body)) == Sample(Stamps(id, now), body)
  {
    SampleCut(body);
    BaseLacksFields();
    CompletedFields(id, now, Sample([], body), BASE, AFTER + body);
    StampedLines(id, now);
    FramedAgain(BASE, "\nid: " + id, "\ncreated_at: " + now, "\nupdated_at: " + now, AFTER + body);
  }

  lemma StampedLength(id: string, now: string, body: string)
    ensures |Sample(Stamps(id, now), body)| == |Sample([], body)| + |id| + 2 * |now| + 31
    ensures |Sample([], body)| == 25 + |body|
  {
    StampedLines(id, now);
    BaseLength();
    SampleLength(Stamps(id, now), body);
    SampleLength([], body);
  }

  /** The completion with a fixed id and time. */
  function Fixed(id: string, now: string): Completer {
    (_, content) => Completed(id, now, content)
  }

  // ---------- a page that outgrows the cap ----------

  /** A page of the largest size the agent may propose. */
  function LargestSample(): string {
    Sample([], seq(MAX_PAGE_BYTES - 25, _ => 'x'))
  }

  lemma LargestShape()
    ensures |LargestSample()| == MAX_PAGE_BYTES
    ensures Links(seq(MAX_PAGE_BYTES - 25, _ => 'x')) == []
  {
    StampedLength("", "", seq(MAX_PAGE_BYTES - 25, _ => 'x'));
    NoOpening(seq(MAX_PAGE_BYTES - 25, _ => 'x'));
  }

  /** In an empty wiki it is staged, handed over, passes the validator with its title and its kind,
      and is then refused by the repository: completion took it over the cap. */
  lemma LargestPageIsRefused(id: string, now: string)
    requires PlainStamp(id) && PlainStamp(now) && |id| + 2 * |now| <= 1000
    ensures var r := RunTurns(map[], Fixed(id, now), OneCall(ProposeNew(Some(PATH), Some(LargestSample()))), 0, NOTHING);
            && r.Ok? && BundleErrors(map[], r.value.operations) == []
            && BundleError(r.value.operations) == Some(PageTooLarge)
  {
    var body := seq(MAX_PAGE_BYTES - 25, _ => 'x');
    var full := Sample(Stamps(id, now), body);
    PathIsPlain();
    LargestShape();
    CompletedSample(id, now, body);
    StampedLength(id, now, body);
    StampsArePlain(id, now);
    OutgrownPageIsRefused(map[], Fixed(id, now), PATH, LargestSample());
    SampleIsWellFormed(Stamps(id, now), body, {PATH});
    OneCreateIsValid(PATH, full);
  }

  // ---------- paths that are not names ----------

  /** A model that proposes one small page. */
  function Proposing(path: string, body: string): Model {
    OneCall(ProposeNew(Some(path), Some(Sample([], body))))
  }

  lemma ProposalCommits(id: string, now: string, path: string, body: string)
    requires PlainStamp(id) && PlainStamp(now) && |id| + 2 * |now| + |body| <= 1000
    requires IsAllowed(path) && IsSafe(path) && forall t | t in Links(body) :: PathOnly(t) == path
    ensures PassStep(map[], Pass.Ingest(Fixed(id, now), Proposing(path, body))) ==
              map[Resolve(path) := Sample(Stamps(id, now), body)]
    ensures var ops := [Create(path, Sample(Stamps(id, now), body))];
            BundleErrors(map[], ops) == [] && IsCommitted(map[], ops)
  {
    CompletedSample(id, now, body);
    StampedLength(id, now, body);
    StampsArePlain(id, now);
    OneProposalRuns(map[], Fixed(id, now), path, Sample([], body));
    SampleIsWellFormed(Stamps(id, now), body, {path});
    OneCreatePasses(path, Sample(Stamps(id, now), body));
  }

  /** Link closure fails: a page created as `./b.md` that links to `./b.md` passes every check and is
      listed as `b.md`, so its link dangles. */
  lemma OddLinkBreaksClosure(id: string, now: string)
    requires PlainStamp(id) && PlainStamp(now) && |id| + 2 * |now| <= 900
    ensures Closed(map[])
    ensures !Closed(PassStep(map[], Pass.Ingest(Fixed(id, now), Proposing(Dotted(OTHER), LinkTo(Dotted(OTHER))))))
  {
    TheseAreNames();
    OtherIsPlain();
    DottedChars(OTHER);
    SelfLinkBreaks(id, now, OTHER);
  }

  lemma DottedChars(name: string)
    requires name == OTHER
    ensures LinksAsWritten(Dotted(name)) && |name| <= 10
  {
    assert Dotted(name) == "./b.md";
  }

  predicate LinksAsWritten(path: string) {
    && path != "" && !IsSpace(path[0]) && !IsSpace(path[|path| - 1])
    && '[' !in path && ']' !in path && '#' !in path
  }

  lemma SelfLinkBreaks(id: string, now: string, name: string)
    requires PlainStamp(id) && PlainStamp(now) && |id| + 2 * |now| <= 900
    requires IsName(name) && !IsSystem(name) && LinksAsWritten(Dotted(name)) && |name| <= 10
    ensures !Closed(PassStep(map[], Pass.Ingest(Fixed(id, now), Proposing(Dotted(name), LinkTo(Dotted(name))))))
  {
    NameIsListed(name);
    LinkToLinks(Dotted(name));
    DottedCommits(id, now, name, LinkTo(Dotted(name)));
    SelfLinkDangles(name, Stamps(id, now), id, now);
  }

  lemma DottedCommits(id: string, now: string, name: string, body: string)
    requires PlainStamp(id) && PlainStamp(now) && |id| + 2 * |now| + |body| <= 1000
    requires IsName(name) && forall t | t in Links(body) :: PathOnly(t) == Dotted(name)
    ensures PassStep(map[], Pass.Ingest(Fixed(id, now), Proposing(Dotted(name), body))) ==
              map[name := Sample(Stamps(id, now), body)]
  {
    DottedPath(name);
    ProposalCommits(id, now, Dotted(name), body);
  }

  lemma SelfLinkDangles(name: string, more: seq<string>, id: string, now: string)
    requires PlainStamp(id) && PlainStamp(now) && more == Stamps(id, now)
    requires IsPage(name) && !IsSystem(name) && LinksAsWritten(Dotted(name))
    ensures !Closed(map[name := Sample(more, LinkTo(Dotted(name)))])
  {
    StampsArePlain(id, now);
    LinkToLinks(Dotted(name));
    SampleLinks(more, LinkTo(Dotted(name)));
    OnlyPageDangles(name, Sample(more, LinkTo(Dotted(name))), Dotted(name));
  }

  lemma OnlyPageDangles(path: string, content: string, target: string)
    requires IsPage(path) && !IsSystem(path) && target in Links(content) && PathOnly(target) != path
    ensures !Closed(map[path := content])
  {
    assert Pages(map[path := content]) == {path};
    DanglingLink(map[path := content], path, target);
  }

  lemma DanglingLink(files: Files, path: string, target: string)
    requires path in Pages(files) && !IsSystem(path) && target in Links(files[path]) && PathOnly(target) !in Pages(files)
    ensures !Closed(files)
  {
    assert !WellFormed(files[path], Pages(files));
  }

  lemma OnePatchIsValid(files: Files, path: string, content: string)
    requires WellFormed(content, Pages(files))
    ensures BundleErrors(files, [Patch(path, content)]) == []
  {
    FoldOne(AddOp, Pages(files), Patch(path, content));
    PassesExactly(files, [Patch(path, content)]);
    assert forall o | o in [Patch(path, content)] :: o == Patch(path, content);
  }

  lemma OnePatchPasses(files: Files, complete: Completer, path: string, content: string)
    requires IsProposal(path, content) && IsThere(files, path) && WellFormed(content, Pages(files))
    ensures PassStep(files, Pass.Ingest(complete, OneCall(ProposePatch(Some(path), Some(content))))) ==
              files[Resolve(path) := content]
  {
    OnePatchRuns(files, complete, path, content);
    OnePatchIsValid(files, path, content);
    OneWriteIsAccepted(Patch(path, content));
    FoldOne(ApplyOp, files, Patch(path, content));
  }

  lemma DottedPatchPasses(files: Files, complete: Completer, name: string, content: string)
    requires IsName(name) && name in files && |content| <= MAX_PAGE_BYTES && WellFormed(content, Pages(files))
    ensures PassStep(files, Pass.Ingest(complete, OneCall(ProposePatch(Some(Dotted(name)), Some(content))))) ==
              files[name := content]
  {
    DottedPath(name);
    assert IsThere(files, Dotted(name));
    OnePatchPasses(files, complete, Dotted(name), content);
  }

  /** The guide is overwritten: a model that patches `./QPEDIA.md` replaces it by any page that is
      well formed. */
  lemma GuideIsOverwritten(files: Files, complete: Completer, content: string)
    requires GUIDE in files && |content| <= MAX_PAGE_BYTES && WellFormed(content, Pages(files))
    ensures PassStep(files, Pass.Ingest(complete, OneCall(ProposePatch(Some("./" + GUIDE), Some(content))))) ==
              files[GUIDE := content]
  {
    TheseAreNames();
    DottedPatchPasses(files, complete, GUIDE, content);
  }

  lemma HiddenIsUnsafe()
    ensures !IsSafe(HIDDEN) && IsPage(HIDDEN) && !IsSystem(HIDDEN)
  {
    TheseAreNames();
    NameIsListed(HIDDEN);
    assert HIDDEN[0] == '.' && TrimStartMatches(HIDDEN, '/') == HIDDEN;
    assert HIDDEN[..4] == ".git";
    HeadDecides(HIDDEN, "_meta/");
  }

  /** The bundle the model that proposes it gets. */
  function HidingOps(id: string, now: string): seq<Op> {
    [Create(Dotted(HIDDEN), Sample(Stamps(id, now), ""))]
  }

  lemma HidingCommits(id: string, now: string)
    requires PlainStamp(id) && PlainStamp(now) && |id| + 2 * |now| <= 1000
    ensures PassStep(map[], Pass.Ingest(Fixed(id, now), Proposing(Dotted(HIDDEN), ""))) ==
              Apply(map[], HidingOps(id, now))
    ensures BundleErrors(map[], HidingOps(id, now)) == [] && IsCommitted(map[], HidingOps(id, now))
    ensures HIDDEN in Apply(map[], HidingOps(id, now))
  {
    TheseAreNames();
    DottedPath(HIDDEN);
    NoOpening("");
    ProposalCommits(id, now, Dotted(HIDDEN), "");
    OneCreateApplies(Dotted(HIDDEN), Sample(Stamps(id, now), ""));
  }

  lemma HidingIsJob(id: string, now: string)
    ensures WritesTidily(HidingOps(id, now))
  {
    TheseAreNames();
    DottedPath(HIDDEN);
    NameIsListed(HIDDEN);
    OneIsTidy(Dotted(HIDDEN), Sample(Stamps(id, now), ""));
  }

  lemma HiddenPageCommitted<R>(project: Projector<R>, ops: seq<Op>)
    requires ops != [] && BundleErrors(map[], ops) == [] && IsCommitted(map[], ops)
    requires HIDDEN in Apply(map[], ops)
    ensures !IsReadable(Run(project, State(map[], map[], map[]), [Job.Ingest(ops)]).files)
  {
    OneIngest(project, ops);
    HiddenIsUnsafe();
    assert HIDDEN in Pages(Apply(map[], ops));
  }

  lemma HiddenForever<R>(project: Projector<R>, ops: seq<Op>, more: seq<Job>)
    requires ops != [] && BundleErrors(map[], ops) == [] && IsCommitted(map[], ops) && WritesTidily(ops)
    requires HIDDEN in Apply(map[], ops) && forall job | job in more :: IsJob(job)
    ensures var s := Run(project, State(map[], map[], map[]), [Job.Ingest(ops)] + more);
            !IsReadable(s.files) && !Agreement(project, s.files, s.rows)
  {
    HiddenPageCommitted(project, ops);
    ConsMembers(Job.Ingest(ops), more);
    UnreadableForGood(project, map[], [Job.Ingest(ops)], more);
  }

  /** A page created as `./.git.md` is listed as `.git.md`, which nothing can read: from then on every
      removal fails, and the index never agrees with the wiki again, whatever jobs run. */
  lemma HiddenPageIsForever<R>(project: Projector<R>, id: string, now: string, more: seq<Job>)
    requires PlainStamp(id) && PlainStamp(now) && |id| + 2 * |now| <= 1000
    requires forall job | job in more :: IsJob(job)
    ensures PassStep(map[], Pass.Ingest(Fixed(id, now), Proposing(Dotted(HIDDEN), ""))) ==
              Apply(map[], HidingOps(id, now))
    ensures var s := Run(project, State(map[], map[], map[]), [Job.Ingest(HidingOps(id, now))] + more);
            !IsReadable(s.files) && !Agreement(project, s.files, s.rows)
  {
    HidingCommits(id, now);
    HidingIsJob(id, now);
    HiddenForever(project, HidingOps(id, now), more);
  }
}
