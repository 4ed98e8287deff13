/** Removing a source: which pages go, which lose a citation, and what the wiki is left with. */
module Remove {
  import opened Frontmatter
  import opened Paths
  import opened Seqs
  import opened Text
  import opened Wiki
  import opened Wikilinks
  import opened Wrappers
  import Slug

  predicate Cites(content: string, source: string) {
    source in ExtractIds(content)
  }

  function Remaining(content: string, source: string): seq<string> {
    Filter((id: string) => id != source, ExtractIds(content))
  }

  /** What becomes of one page. */
  datatype Verdict = Keep | Drop | Recite(content: string)

  function VerdictOn(path: string, content: string, source: string): Verdict {
    if IsSystem(path) || !Cites(content, source) then Keep
    else if Remaining(content, source) == [] then Drop
    else Recite(Rewrite(content, Remaining(content, source)))
  }

  function Judged(files: Files, source: string, path: string): Verdict {
    if path in files && IsPage(path) then VerdictOn(path, files[path], source) else Keep
  }

  function ToDelete(files: Files, source: string): set<string> {
    set path | path in files && Judged(files, source, path).Drop?
  }

  function ToPatch(files: Files, source: string): set<string> {
    set path | path in files && Judged(files, source, path).Recite?
  }

  /** What each path holds once the source is gone. */
  function Left(files: Files, source: string, entry: string, path: string): Option<string> {
    match Judged(files, source, path)
    case Drop => None
    case Recite(content) => Some(content)
    case Keep =>
      if path !in files then None
      else if path == "index.md" && ToDelete(files, source) != {} then
        Some(CleanIndex(files[path], ToDelete(files, source)))
      else if path == "log.md" then Some(TrimEnd(files[path]) + entry)
      else Some(files[path])
  }

  function FilesLeft(files: Files, source: string, entry: string): Files {
    map p | p in files && Left(files, source, entry, p).Some? :: Left(files, source, entry, p).value
  }

  lemma FilesLeftAt(files: Files, source: string, entry: string, path: string)
    ensures Content(FilesLeft(files, source, entry), path) == Left(files, source, entry, path)
  {
  }

  // ---------- operations that agree with an outcome ----------

  /** The operation does to the file it names what `left` says. */
  predicate Agrees(op: Op, left: string -> Option<string>) {
    !op.Link? && left(Resolve(op.path)) == if Writes(op) then Some(op.content) else None
  }

  /** Operations that all agree with an outcome, and name every path it changes, bring it about. */
  lemma AgreeingOps(files: Files, ops: seq<Op>, left: string -> Option<string>, path: string)
    requires forall op | op in ops :: Agrees(op, left)
    requires (exists op :: op in ops && Touches(op, path)) || left(path) == Content(files, path)
    ensures Content(Apply(files, ops), path) == left(path)
  {
    LastOpDecides(files, ops, path);
  }

  // ---------- planning ----------

  method Judge(path: string, content: string, source: string) returns (v: Verdict)
    ensures v == VerdictOn(path, content, source)
  {
    if IsSystem(path) {
      return Keep;
    }
    var ids := ExtractSourceIds(content);
    if source !in ids {
      return Keep;
    }
    var remaining := Filter((id: string) => id != source, ids);
    if remaining == [] {
      return Drop;
    }
    var newContent := RemoveSourceIdFromFrontmatter(content, remaining);
    return Recite(newContent);
  }

  type Patches = seq<(string, string)>

  function First(q: (string, string)): string {
    q.0
  }

  /** The pages that go and those that are rewritten, each once, by any reading of the verdicts. */
  ghost predicate Sorted(verdict: string -> Verdict, pages: set<string>, toDelete: seq<string>, toPatch: Patches) {
    && NoRepeats(toDelete) && NoRepeats(Map(First, toPatch))
    && (forall p :: p in toDelete <==> p in pages && verdict(p).Drop?)
    && (forall q | q in toPatch :: q.0 in pages && verdict(q.0) == Recite(q.1))
    && (forall p | p in pages && verdict(p).Recite? :: (p, verdict(p).content) in toPatch)
  }

  lemma SortOne(verdict: string -> Verdict, pages: set<string>, page: string, toDelete: seq<string>, toPatch: Patches)
    requires Sorted(verdict, pages, toDelete, toPatch) && page !in pages
    ensures verdict(page).Keep? ==> Sorted(verdict, pages + {page}, toDelete, toPatch)
    ensures verdict(page).Drop? ==> Sorted(verdict, pages + {page}, toDelete + [page], toPatch)
    ensures verdict(page).Recite? ==>
              Sorted(verdict, pages + {page}, toDelete, toPatch + [(page, verdict(page).content)])
  {
    assert forall i | 0 <= i < |toPatch| :: toPatch[i] in toPatch && Map(First, toPatch)[i] == toPatch[i].0;
  }

  /** The walk can read every page it looks into. */
  predicate IsReadable(files: Files) {
    forall p | p in Pages(files) && !IsSystem(p) :: IsSafe(p)
  }

  /** The walk; it fails at the first page it cannot read, whatever that page cites. */
  method Sort(repo: WikiRepo, source: string, ghost verdict: string -> Verdict)
    returns (ok: bool, toDelete: seq<string>, toPatch: Patches)
    requires forall p :: verdict(p) == Judged(repo.files, source, p)
    ensures ok <==> IsReadable(repo.files)
    ensures ok ==> Sorted(verdict, Pages(repo.files), toDelete, toPatch)
  {
    toDelete, toPatch := [], [];
    var listed := repo.ListPages("");
    ListingOfRoot(repo.files);
    var pages := listed.value;
    for i := 0 to |pages|
      invariant Sorted(verdict, Elements(pages[..i]), toDelete, toPatch)
      invariant forall p | p in Elements(pages[..i]) && !IsSystem(p) :: IsSafe(p)
    {
      var page := pages[i];
      ElementsStep(pages, i);
      if !IsSystem(page) && !IsSafe(page) {
        return false, [], [];
      }
      SortOne(verdict, Elements(pages[..i]), page, toDelete, toPatch);
      var v := Judge(page, repo.files[page], source);
      assert v == verdict(page);
      match v {
        case Keep =>
        case Drop => toDelete := toDelete + [page];
        case Recite(content) => toPatch := toPatch + [(page, content)];
      }
    }
    assert pages[..|pages|] == pages;
    ok := true;
  }

  function DeleteOp(path: string): Op {
    Delete(path)
  }

  function PatchOp(q: (string, string)): Op {
    Patch(q.0, q.1)
  }

  /** One operation for each page to delete and each to rewrite. */
  function StagedOps(toDelete: seq<string>, toPatch: Patches): seq<Op> {
    Map(DeleteOp, toDelete) + Map(PatchOp, toPatch)
  }

  method Stage(toDelete: seq<string>, toPatch: Patches) returns (ops: seq<Op>)
    ensures ops == StagedOps(toDelete, toPatch)
  {
    ops := [];
    for i := 0 to |toDelete|
      invariant ops == Map(DeleteOp, toDelete[..i])
    {
      ops := ops + [Delete(toDelete[i])];
    }
    assert toDelete[..|toDelete|] == toDelete;
    ghost var deletes := ops;
    for i := 0 to |toPatch|
      invariant ops == deletes + Map(PatchOp, toPatch[..i])
    {
      ops := ops + [Patch(toPatch[i].0, toPatch[i].1)];
    }
    assert toPatch[..|toPatch|] == toPatch;
  }

  predicate Covers(ops: seq<Op>, path: string) {
    exists op :: op in ops && Touches(op, path)
  }

  /** The staged operations do what the verdicts say, and miss no page with a verdict. */
  lemma StagedAgree(verdict: string -> Verdict, left: string -> Option<string>,
                    pages: set<string>, toDelete: seq<string>, toPatch: Patches)
    requires Sorted(verdict, pages, toDelete, toPatch) && forall p | p in pages :: Resolve(p) == p
    requires forall p | verdict(p).Drop? :: left(p) == None
    requires forall p | verdict(p).Recite? :: left(p) == Some(verdict(p).content)
    ensures forall op | op in StagedOps(toDelete, toPatch) :: Agrees(op, left) && !verdict(op.path).Keep?
    ensures forall p | p in pages && !verdict(p).Keep? :: Covers(StagedOps(toDelete, toPatch), p)
  {
    var ops := StagedOps(toDelete, toPatch);
    forall op | op in ops
      ensures Agrees(op, left) && !verdict(op.path).Keep?
    {
      var i :| 0 <= i < |ops| && ops[i] == op;
      if i < |toDelete| {
        assert toDelete[i] in toDelete;
      } else {
        assert toPatch[i - |toDelete|] in toPatch;
      }
    }
    forall p | p in pages && !verdict(p).Keep?
      ensures Covers(ops, p)
    {
      if verdict(p).Drop? {
        var i :| 0 <= i < |toDelete| && toDelete[i] == p;
        assert ops[i] == Delete(p) && ops[i] in ops;
      } else {
        var i :| 0 <= i < |toPatch| && toPatch[i] == (p, verdict(p).content);
        assert ops[|toDelete| + i] == Patch(p, verdict(p).content) && ops[|toDelete| + i] in ops;
      }
    }
  }

  lemma SystemIsKept(files: Files, source: string, path: string)
    requires IsSystem(path)
    ensures Judged(files, source, path) == Keep
  {
  }

  lemma CoversMore(ops: seq<Op>, more: seq<Op>, path: string)
    ensures Covers(ops + more, path) <==> Covers(ops, path) || Covers(more, path)
  {
    forall op | op in ops && Touches(op, path)
      ensures op in ops + more
    {
    }
    forall op | op in more && Touches(op, path)
      ensures op in ops + more
    {
    }
  }

  lemma BotNamesResolve()
    ensures Resolve("index.md") == "index.md" && Resolve("log.md") == "log.md"
  {
    PlainNameResolves("index.md");
    PlainNameResolves("log.md");
  }

  lemma CoversOne(op: Op, path: string)
    ensures Covers([op], path) <==> Touches(op, path)
  {
    assert op in [op];
  }

  /** Staged operations, then one for each bot-kept file that changes, amount to the outcome. */
  lemma PlanAmounts(files: Files, source: string, entry: string, staged: seq<Op>, index: seq<Op>, log: seq<Op>)
    requires var left := (p: string) => Left(files, source, entry, p);
             && (forall op | op in staged + index + log :: Agrees(op, left))
             && (forall p | !Judged(files, source, p).Keep? :: Covers(staged, p))
             && (left("index.md") == Content(files, "index.md") || Covers(index, "index.md"))
             && (left("log.md") == Content(files, "log.md") || Covers(log, "log.md"))
    ensures forall p :: Content(Apply(files, staged + index + log), p) == Left(files, source, entry, p)
  {
    var left := (p: string) => Left(files, source, entry, p);
    var ops := staged + index + log;
    forall p
      ensures Content(Apply(files, ops), p) == Left(files, source, entry, p)
    {
      CoversMore(staged, index, p);
      CoversMore(staged + index, log, p);
      assert Covers(ops, p) || left(p) == Content(files, p);
      AgreeingOps(files, ops, left, p);
    }
  }

  /** The index without the lines that link to deleted pages, if that changes it. */
  function NewIndex(files: Files, deleted: set<string>): Option<string> {
    if deleted == {} || "index.md" !in files || CleanIndex(files["index.md"], deleted) == files["index.md"] then None
    else Some(CleanIndex(files["index.md"], deleted))
  }

  function IndexOps(files: Files, deleted: set<string>): seq<Op> {
    match NewIndex(files, deleted) case Some(text) => [Patch("index.md", text)] case None => []
  }

  /** The log with its trailing white space gone and the entry added. */
  function NewLog(files: Files, entry: string): Option<string> {
    if "log.md" in files then Some(TrimEnd(files["log.md"]) + entry) else None
  }

  function LogOps(files: Files, entry: string): seq<Op> {
    match NewLog(files, entry) case Some(text) => [Patch("log.md", text)] case None => []
  }

  lemma IndexLeft(files: Files, source: string, entry: string)
    ensures var index, deleted := Content(files, "index.md"), ToDelete(files, source);
            Left(files, source, entry, "index.md") ==
              if index.Some? && deleted != {} then Some(CleanIndex(index.value, deleted)) else index
  {
    SystemIsKept(files, source, "index.md");
    assert "log.md"[0] != "index.md"[0];
  }

  lemma IndexOpsAgree(files: Files, source: string, entry: string)
    ensures var left, ops := (p: string) => Left(files, source, entry, p), IndexOps(files, ToDelete(files, source));
            && (forall op | op in ops :: Agrees(op, left))
            && (left("index.md") == Content(files, "index.md") || Covers(ops, "index.md"))
  {
    IndexLeft(files, source, entry);
    BotNamesResolve();
    var ops := IndexOps(files, ToDelete(files, source));
    if ops != [] {
      CoversOne(ops[0], "index.md");
    }
  }

  lemma LogLeft(files: Files, source: string, entry: string)
    ensures Left(files, source, entry, "log.md") == NewLog(files, entry)
  {
    SystemIsKept(files, source, "log.md");
    assert "log.md"[0] != "index.md"[0];
  }

  lemma LogOpsAgree(files: Files, source: string, entry: string)
    ensures var left := (p: string) => Left(files, source, entry, p);
            && (forall op | op in LogOps(files, entry) :: Agrees(op, left))
            && (left("log.md") == Content(files, "log.md") || Covers(LogOps(files, entry), "log.md"))
  {
    LogLeft(files, source, entry);
    BotNamesResolve();
    if LogOps(files, entry) != [] {
      CoversOne(LogOps(files, entry)[0], "log.md");
    }
  }

  /** The two lists a removal works from. */
  ghost predicate IsPlan(files: Files, source: string, toDelete: seq<string>, toPatch: Patches) {
    && NoRepeats(toDelete) && Elements(toDelete) == ToDelete(files, source)
    && NoRepeats(Map(First, toPatch)) && Elements(Map(First, toPatch)) == ToPatch(files, source)
    && forall q | q in toPatch :: Judged(files, source, q.0) == Recite(q.1)
  }

  /** The patched paths are those with such a verdict. */
  lemma PatchedPaths(verdict: string -> Verdict, pages: set<string>, toDelete: seq<string>, toPatch: Patches, p: string)
    requires Sorted(verdict, pages, toDelete, toPatch)
    ensures p in Elements(Map(First, toPatch)) <==> p in pages && verdict(p).Recite?
  {
    if p in Elements(Map(First, toPatch)) {
      var i :| 0 <= i < |toPatch| && Map(First, toPatch)[i] == p;
      assert toPatch[i] in toPatch;
    }
    if p in pages && verdict(p).Recite? {
      var i :| 0 <= i < |toPatch| && toPatch[i] == (p, verdict(p).content);
      assert Map(First, toPatch)[i] == p;
    }
  }

  lemma SortedIsPlan(files: Files, source: string, verdict: string -> Verdict, toDelete: seq<string>, toPatch: Patches)
    requires forall p :: verdict(p) == Judged(files, source, p)
    requires Sorted(verdict, Pages(files), toDelete, toPatch)
    ensures IsPlan(files, source, toDelete, toPatch)
    ensures |toDelete| == |ToDelete(files, source)| && |toPatch| == |ToPatch(files, source)|
  {
    forall p
      ensures p in Elements(Map(First, toPatch)) <==> p in ToPatch(files, source)
    {
      PatchedPaths(verdict, Pages(files), toDelete, toPatch, p);
      JudgedPagesOnly(files, source, p);
    }
    forall p
      ensures p in Elements(toDelete) <==> p in ToDelete(files, source)
    {
      JudgedPagesOnly(files, source, p);
    }
    DistinctSum((p: string) => 0, toDelete);
    DistinctSum((p: string) => 0, Map(First, toPatch));
  }

  lemma JudgedPagesOnly(files: Files, source: string, path: string)
    ensures !Judged(files, source, path).Keep? ==> path in Pages(files)
  {
  }

  /** The whole bundle: deletes, patches, the index if it changes, and always the log. */
  function PlannedOps(files: Files, source: string, entry: string, toDelete: seq<string>, toPatch: Patches): seq<Op> {
    StagedOps(toDelete, toPatch) + IndexOps(files, ToDelete(files, source)) + LogOps(files, entry)
  }

  /** Applied, it leaves every path as `Left` says. */
  lemma PlanIsRight(files: Files, source: string, entry: string, verdict: string -> Verdict,
                    toDelete: seq<string>, toPatch: Patches)
    requires forall p :: verdict(p) == Judged(files, source, p)
    requires OnDisk(files) && Sorted(verdict, Pages(files), toDelete, toPatch)
    ensures Apply(files, PlannedOps(files, source, entry, toDelete, toPatch)) == FilesLeft(files, source, entry)
  {
    var left := (p: string) => Left(files, source, entry, p);
    var staged := StagedOps(toDelete, toPatch);
    StagedAgree(verdict, left, Pages(files), toDelete, toPatch);
    IndexOpsAgree(files, source, entry);
    LogOpsAgree(files, source, entry);
    PlanAmounts(files, source, entry, staged, IndexOps(files, ToDelete(files, source)), LogOps(files, entry));
    var ops := PlannedOps(files, source, entry, toDelete, toPatch);
    forall p
      ensures Content(Apply(files, ops), p) == Content(FilesLeft(files, source, entry), p)
    {
      FilesLeftAt(files, source, entry, p);
    }
    SameFiles(Apply(files, ops), FilesLeft(files, source, entry));
  }

  method StageIndex(files: Files, toDelete: seq<string>) returns (ops: seq<Op>)
    ensures ops == IndexOps(files, Elements(toDelete))
  {
    ops := [];
    if toDelete != [] && "index.md" in files {
      assert toDelete[0] in Elements(toDelete);
      var newIndex := RemoveWikilinksFromIndex(files["index.md"], toDelete);
      if newIndex != files["index.md"] {
        ops := [Patch("index.md", newIndex)];
      }
    }
  }

  /** The text logged, of how many pages were deleted and how many patched. */
  type Entry = (nat, nat) -> string

  function EntryFor(files: Files, source: string, entry: Entry): string {
    entry(|ToDelete(files, source)|, |ToPatch(files, source)|)
  }

  /** The bundle that removes a source, and what it makes of the wiki; none if some page cannot be
      read. */
  method Plan(repo: WikiRepo, source: string, entry: Entry)
    returns (ok: bool, toDelete: seq<string>, toPatch: Patches, ops: seq<Op>)
    requires repo.Valid()
    ensures ok <==> IsReadable(repo.files)
    ensures ok ==>
              && IsPlan(repo.files, source, toDelete, toPatch)
              && ops == PlannedOps(repo.files, source, EntryFor(repo.files, source, entry), toDelete, toPatch)
              && Apply(repo.files, ops) == FilesLeft(repo.files, source, EntryFor(repo.files, source, entry))
  {
    var files := repo.files;
    ghost var verdict := (p: string) => Judged(files, source, p);
    ops := [];
    ok, toDelete, toPatch := Sort(repo, source, verdict);
    if ok {
      SortedIsPlan(files, source, verdict, toDelete, toPatch);
      var staged := Stage(toDelete, toPatch);
      var index := StageIndex(files, toDelete);
      var line := entry(|toDelete|, |toPatch|);
      ops := staged + index + LogOps(files, line);
      PlanIsRight(files, source, line, verdict, toDelete, toPatch);
    }
  }

  // ---------- what removal achieves ----------

  /** A page that stays although it cited the source is a framed page with other, readable ids. */
  lemma RecitedPage(files: Files, source: string, path: string)
    requires Judged(files, source, path).Recite?
    ensures var ids := Remaining(files[path], source);
            && Frame(files[path]).Some? && ids != [] && (forall id | id in ids :: Readable(id))
            && Judged(files, source, path).content == Rewrite(files[path], ids)
  {
    ExtractedIdsAreReadable(files[path]);
    RemainingIds(files[path], source);
  }

  /** Some other id of the page equals the source once the quotes at its ends are taken off. */
  predicate HasTwin(content: string, source: string) {
    exists id :: id in ExtractIds(content) && id != source && Bare(id) == source
  }

  /** A page that stays still cites the removed source exactly if it did before and has such an id. */
  lemma StillCites(files: Files, source: string, entry: string, path: string)
    requires path in files && IsPage(path) && !IsSystem(path) && Left(files, source, entry, path).Some?
    ensures Cites(Left(files, source, entry, path).value, source) <==>
              Cites(files[path], source) && HasTwin(files[path], source)
  {
    if Judged(files, source, path).Recite? {
      var ids := Remaining(files[path], source);
      RecitedPage(files, source, path);
      RewriteCites(files[path], ids);
      RecitedIsLeft(files, source, entry, path);
      RereadMembers(ids, source);
      RemainingIds(files[path], source);
      ExtractedIdsAreReadable(files[path]);
    } else {
      KeptPage(files, source, entry, path);
    }
  }

  lemma RemainingIds(content: string, source: string)
    ensures forall id :: id in Remaining(content, source) <==> id in ExtractIds(content) && id != source
  {
    FilterMembers((id: string) => id != source, ExtractIds(content));
  }

  /** Ids without a double quote at an end are no twins. */
  lemma CleanIdsAreNoTwins(content: string, source: string)
    requires forall id | id in ExtractIds(content) :: id != source ==> !QuoteAtEnd(id)
    ensures !HasTwin(content, source)
  {
    ExtractedIdsAreReadable(content);
    forall id | id in ExtractIds(content) && id != source
      ensures Bare(id) == id
    {
      BareLength(id);
    }
  }

  lemma RecitedIsLeft(files: Files, source: string, entry: string, path: string)
    requires Judged(files, source, path).Recite?
    ensures Left(files, source, entry, path) == Some(Judged(files, source, path).content)
  {
  }

  lemma KeptPage(files: Files, source: string, entry: string, path: string)
    requires path in files && IsPage(path) && !IsSystem(path) && !Judged(files, source, path).Recite?
    ensures Left(files, source, entry, path).Some? ==>
              Left(files, source, entry, path) == Some(files[path]) && !Cites(files[path], source)
  {
    NoSystemName(path);
  }

  lemma NoSystemName(path: string)
    requires !IsSystem(path)
    ensures path != "index.md" && path != "log.md"
  {
  }

  /** Removal leaves no page citing the source, unless some page keeps an id that has a double
      quote at an end; other pages' ids are then exactly the ones they had, less the source, on
      each `source_ids` line. */
  lemma NoCitationSurvives(files: Files, source: string, entry: string, path: string)
    requires path in files && IsPage(path) && !IsSystem(path)
    requires forall id | id in ExtractIds(files[path]) :: id != source ==> !QuoteAtEnd(id)
    ensures var left, ids := Left(files, source, entry, path), Remaining(files[path], source);
            && (left.None? <==> Cites(files[path], source) && ids == [])
            && (left.Some? ==> !Cites(left.value, source))
            && (left.Some? && Cites(files[path], source) ==>
                  ExtractIds(left.value) == Repeat(ids, LineCount(Lines(Frame(files[path]).value.fm))))
            && (!Cites(files[path], source) ==> left == Some(files[path]))
  {
    var ids := Remaining(files[path], source);
    RemainingIds(files[path], source);
    NoSystemName(path);
    if Judged(files, source, path).Recite? {
      RecitedPage(files, source, path);
      CleanIdsAreNoTwins(files[path], source);
      StillCites(files, source, entry, path);
      RewriteRoundTrip(files[path], ids);
    }
  }

  /** Ids as the system mints them never meet the exception. */
  lemma SlugsAreSafeIds(id: string)
    requires Slug.IsSlug(id)
    ensures Readable(id) && !QuoteAtEnd(id)
  {
  }

  /** The exception is real: a page that cites an id and also the same id in double quotes stays,
      and cites the id again. */
  lemma QuotedTwinRevives(files: Files, source: string, entry: string, path: string)
    requires path in files && IsPage(path) && !IsSystem(path)
    requires Cites(files[path], source) && Cites(files[path], Quote(source)) && !QuoteAtEnd(source)
    ensures Left(files, source, entry, path).Some? && Cites(Left(files, source, entry, path).value, source)
  {
    var twin := Quote(source);
    ExtractedIdsAreReadable(files[path]);
    RemainingIds(files[path], source);
    assert twin in Remaining(files[path], source);
    RecitedIsLeft(files, source, entry, path);
    BareLength(source);
    WrappingComesOff(source, '"');
    StillCites(files, source, entry, path);
  }

  /** Such a page can be written for every source a page can cite. */
  lemma TwinPageExists(source: string)
    requires Readable(source)
    ensures ExtractIds(PageListing([source, Quote(source)])) == [source, Quote(source)]
    ensures Cites(PageListing([source, Quote(source)]), source) && Cites(PageListing([source, Quote(source)]), Quote(source))
  {
    assert Readable(Quote(source));
    PageListingReads([source, Quote(source)]);
  }

  /** When pages are deleted, no line of the index is left with a link to one of them. */
  lemma IndexIsClean(files: Files, source: string, entry: string)
    requires "index.md" in files && ToDelete(files, source) != {}
    ensures Left(files, source, entry, "index.md").Some?
    ensures forall line | line in Lines(Left(files, source, entry, "index.md").value) ::
              !LinksTo(line, ToDelete(files, source))
  {
    SystemIsKept(files, source, "index.md");
    CleanIndexIsClean(files["index.md"], ToDelete(files, source));
  }

  // ---------- when the commit is refused ----------

  /** The bytes a rewritten page will hold; other pages hold none of the bundle's. */
  function PatchedBytes(files: Files, source: string): string -> nat {
    (p: string) => match Judged(files, source, p) case Recite(content) => |content| case _ => 0
  }

  function BytesOf(text: Option<string>): nat {
    match text case Some(t) => |t| case None => 0
  }

  /** All the bytes a removal writes. */
  ghost function RemovalBytes(files: Files, source: string, entry: string): nat {
    SumOver(PatchedBytes(files, source), ToPatch(files, source))
    + BytesOf(NewIndex(files, ToDelete(files, source))) + BytesOf(NewLog(files, entry))
  }

  /** What a removal cannot get past the repository's checks: a rewritten page, the cleaned index
      or the log over the page cap, or too much in all. */
  ghost predicate IsRefused(files: Files, source: string, entry: string) {
    || (exists p :: p in ToPatch(files, source) && PatchedBytes(files, source)(p) > PAGE_CAP)
    || BytesOf(NewIndex(files, ToDelete(files, source))) > PAGE_CAP
    || BytesOf(NewLog(files, entry)) > PAGE_CAP
    || RemovalBytes(files, source, entry) > BUNDLE_CAP
  }

  lemma BotFilesAreSafe()
    ensures IsSafe("index.md") && IsSafe("log.md")
  {
    HeadDecides("index.md", ".git");
    HeadDecides("log.md", ".git");
    PlainNameIsSafe("index.md");
    PlainNameIsSafe("log.md");
  }

  lemma {:induction false} StagedBytes(bytes: string -> nat, toPatch: Patches)
    requires forall q | q in toPatch :: bytes(q.0) == |q.1|
    ensures TotalSize(Map(PatchOp, toPatch)) == SumSeq(bytes, Map(First, toPatch))
    decreases |toPatch|
  {
    if toPatch != [] {
      var n := |toPatch| - 1;
      StagedBytes(bytes, toPatch[..n]);
      TakeNext(toPatch, n);
      assert toPatch[..n + 1] == toPatch && toPatch[n] in toPatch;
      MapStep(PatchOp, toPatch, n);
      TotalSizeConcat(Map(PatchOp, toPatch[..n]), [PatchOp(toPatch[n])]);
      assert Map(First, toPatch)[..n] == Map(First, toPatch[..n]);
    }
  }

  lemma {:induction false} DeletesAreFree(toDelete: seq<string>)
    ensures TotalSize(Map(DeleteOp, toDelete)) == 0
  {
    if toDelete != [] {
      MapHead(DeleteOp, toDelete);
      TailAppend([DeleteOp(toDelete[0])], Map(DeleteOp, toDelete[1..]));
      AppendEmpty(Map(DeleteOp, toDelete[1..]));
      DeletesAreFree(toDelete[1..]);
    }
  }

  lemma PlannedBytes(files: Files, source: string, entry: string, toDelete: seq<string>, toPatch: Patches)
    requires IsPlan(files, source, toDelete, toPatch)
    ensures TotalSize(PlannedOps(files, source, entry, toDelete, toPatch)) == RemovalBytes(files, source, entry)
  {
    var staged, index, log := StagedOps(toDelete, toPatch), IndexOps(files, ToDelete(files, source)), LogOps(files, entry);
    TotalSizeConcat(staged + index, log);
    TotalSizeConcat(staged, index);
    TotalSizeConcat(Map(DeleteOp, toDelete), Map(PatchOp, toPatch));
    DeletesAreFree(toDelete);
    StagedBytes(PatchedBytes(files, source), toPatch);
    DistinctSum(PatchedBytes(files, source), Map(First, toPatch));
  }

  lemma StagedAtFault(bytes: string -> nat, toDelete: seq<string>, toPatch: Patches)
    requires forall q | q in toPatch :: bytes(q.0) == |q.1|
    ensures var deleted, patched := Elements(toDelete), Elements(Map(First, toPatch));
            AtFault(StagedOps(toDelete, toPatch)) <==>
              || (exists p :: p in deleted + patched && !IsSafe(p))
              || (exists p :: p in patched && bytes(p) > PAGE_CAP)
  {
    AtFaultConcat(Map(DeleteOp, toDelete), Map(PatchOp, toPatch));
    DeletesAtFault(toDelete);
    PatchesAtFault(bytes, toPatch);
  }

  lemma DeletesAtFault(toDelete: seq<string>)
    ensures AtFault(Map(DeleteOp, toDelete)) <==> exists p :: p in Elements(toDelete) && !IsSafe(p)
  {
    var ops := Map(DeleteOp, toDelete);
    forall i | 0 <= i < |toDelete|
      ensures ops[i] in ops && toDelete[i] in Elements(toDelete)
      ensures OpError(ops[i]).Some? <==> !IsSafe(toDelete[i])
    {
    }
    forall op | op in ops
      ensures exists i :: 0 <= i < |toDelete| && ops[i] == op
    {
    }
  }

  lemma PatchesAtFault(bytes: string -> nat, toPatch: Patches)
    requires forall q | q in toPatch :: bytes(q.0) == |q.1|
    ensures var patched := Elements(Map(First, toPatch));
            AtFault(Map(PatchOp, toPatch)) <==> exists p :: p in patched && (!IsSafe(p) || bytes(p) > PAGE_CAP)
  {
    var ops, paths := Map(PatchOp, toPatch), Map(First, toPatch);
    forall i | 0 <= i < |toPatch|
      ensures ops[i] in ops && paths[i] in Elements(paths)
      ensures OpError(ops[i]).Some? <==> !IsSafe(paths[i]) || bytes(paths[i]) > PAGE_CAP
    {
      assert toPatch[i] in toPatch;
    }
    forall op | op in ops
      ensures exists i :: 0 <= i < |toPatch| && ops[i] == op
    {
    }
    forall p | p in Elements(paths)
      ensures exists i :: 0 <= i < |toPatch| && paths[i] == p
    {
    }
  }

  lemma BotFilesAtFault(files: Files, entry: string, deleted: set<string>)
    ensures AtFault(IndexOps(files, deleted)) <==> BytesOf(NewIndex(files, deleted)) > PAGE_CAP
    ensures AtFault(LogOps(files, entry)) <==> BytesOf(NewLog(files, entry)) > PAGE_CAP
  {
    BotFilesAreSafe();
    if IndexOps(files, deleted) != [] {
      AtFaultOne(IndexOps(files, deleted)[0]);
    }
    if LogOps(files, entry) != [] {
      AtFaultOne(LogOps(files, entry)[0]);
    }
  }

  /** When a removal is refused, for all inputs: once the walk has read every page, the checks
      refuse the planned bundle if and only if a page, the index, the log or the total is over its
      cap. */
  lemma RemovalRefusedExactly(files: Files, source: string, entry: string, toDelete: seq<string>, toPatch: Patches)
    requires IsReadable(files) && IsPlan(files, source, toDelete, toPatch)
    ensures BundleError(PlannedOps(files, source, entry, toDelete, toPatch)).Some? <==> IsRefused(files, source, entry)
  {
    var staged, index, log := StagedOps(toDelete, toPatch), IndexOps(files, ToDelete(files, source)), LogOps(files, entry);
    RefusedForSome(staged + index + log);
    AtFaultConcat(staged + index, log);
    AtFaultConcat(staged, index);
    PlannedBytes(files, source, entry, toDelete, toPatch);
    StagedAtFault(PatchedBytes(files, source), toDelete, toPatch);
    BotFilesAtFault(files, entry, ToDelete(files, source));
    PlannedAreReadable(files, source);
  }

  lemma PlannedAreReadable(files: Files, source: string)
    requires IsReadable(files)
    ensures forall p | p in ToDelete(files, source) + ToPatch(files, source) :: IsSafe(p)
  {
    forall p | p in ToDelete(files, source) + ToPatch(files, source)
      ensures p in Pages(files) && !IsSystem(p)
    {
      JudgedPagesOnly(files, source, p);
    }
  }

  /** A retried removal finds nothing left to delete or patch, and still is no empty bundle: it
      writes the log, and is refused exactly when the log has no room for the entry. */
  lemma RetriedRemoval(files: Files, source: string, entry: string, toDelete: seq<string>, toPatch: Patches)
    requires IsPlan(files, source, toDelete, toPatch)
    requires ToDelete(files, source) == {} == ToPatch(files, source)
    ensures PlannedOps(files, source, entry, toDelete, toPatch) == LogOps(files, entry)
    ensures LogOps(files, entry) == [] <==> "log.md" !in files
    ensures IsRefused(files, source, entry) <==> "log.md" in files && |TrimEnd(files["log.md"]) + entry| > PAGE_CAP
  {
    NoElements(toDelete);
    NoElements(Map(First, toPatch));
    AppendEmpty(LogOps(files, entry));
  }

  /** The removal that committed leaves just such a wiki, unless a page keeps an id with a double
      quote at an end. */
  lemma NothingLeftToRemove(files: Files, source: string, entry: string)
    requires forall p, id | p in files && id in ExtractIds(files[p]) :: id != source ==> !QuoteAtEnd(id)
    ensures ToDelete(FilesLeft(files, source, entry), source) == {} == ToPatch(FilesLeft(files, source, entry), source)
  {
    var left := FilesLeft(files, source, entry);
    forall p
      ensures Judged(left, source, p).Keep?
    {
      if p in left && IsPage(p) && !IsSystem(p) {
        FilesLeftAt(files, source, entry, p);
        NoCitationSurvives(files, source, entry, p);
      }
    }
  }
}
