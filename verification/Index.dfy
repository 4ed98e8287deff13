/** The search index beside the wiki: rows kept up from HEAD's changes alone, and rebuilt whole. */
module Index {
  import opened Paths
  import opened Remove
  import opened Seqs
  import opened Validator
  import opened Wiki
  import opened Wrappers
  import Frontmatter
  import Projection

  const BATCH_SIZE: nat := 32

  /** The row of a page. */
  type Projector<!R> = (string, string) -> R

  function Projected<R>(project: Projector<R>, files: Files, paths: set<string>): map<string, R> {
    map p | p in paths && p in files :: project(p, files[p])
  }

  /** Every path of the set can be read. */
  predicate AllSafe(paths: set<string>) {
    forall p | p in paths :: IsSafe(p)
  }

  /** Rows after the files HEAD changed have been embedded; those it removed are passed over. A path
      that cannot be read, removed or not, fails the embedding before any row is written. */
  function Embedded<R>(project: Projector<R>, parent: Files, files: Files, rows: map<string, R>): map<string, R> {
    if AllSafe(Changed(parent, files)) then rows + Projected(project, files, Changed(parent, files)) else rows
  }

  /** Rows after a rebuild that got as far as these pages: the rows of all there are, deleted, and
      theirs written again. */
  function Rewritten<R>(project: Projector<R>, files: Files, rows: map<string, R>, written: set<string>): map<string, R> {
    (rows - Pages(files)) + Projected(project, files, written)
  }

  function Rebuilt<R>(project: Projector<R>, files: Files, rows: map<string, R>): map<string, R> {
    Rewritten(project, files, rows, Pages(files))
  }

  /** The table of one tenant's rows. */
  class WikiPages<R> {
    var rows: map<string, R>

    constructor ()
      ensures rows == map[]
    {
      rows := map[];
    }

    method Upsert(path: string, row: R)
      modifies this
      ensures rows == old(rows)[path := row]
    {
      rows := rows[path := row];
    }

    method DeleteRow(path: string)
      modifies this
      ensures rows == old(rows) - {path}
    {
      rows := rows - {path};
    }

    method UpsertAll(records: seq<(string, R)>)
      modifies this
      ensures rows == old(rows) + Recorded(records)
    {
      for i := 0 to |records|
        invariant rows == old(rows) + Recorded(records[..i])
      {
        RecordedMore(old(rows), records, i);
        Upsert(records[i].0, records[i].1);
      }
      assert records[..|records|] == records;
    }

    method DeleteAll(paths: seq<string>)
      modifies this
      ensures rows == old(rows) - Elements(paths)
    {
      for i := 0 to |paths|
        invariant rows == old(rows) - Elements(paths[..i])
      {
        TakeNext(paths, i);
        DeleteRow(paths[i]);
      }
      assert paths[..|paths|] == paths;
    }
  }

  function Recorded<R>(records: seq<(string, R)>): map<string, R>
    decreases |records|
  {
    if records == [] then map[]
    else var n := |records| - 1; Recorded(records[..n])[records[n].0 := records[n].1]
  }

  lemma RecordedMore<R>(base: map<string, R>, records: seq<(string, R)>, i: nat)
    requires i < |records|
    ensures base + Recorded(records[..i + 1]) == (base + Recorded(records[..i]))[records[i].0 := records[i].1]
  {
    assert records[..i + 1][..i] == records[..i];
  }

  function RecordOf<R>(project: Projector<R>, files: Files, path: string): seq<(string, R)> {
    if path in files then [(path, project(path, files[path]))] else []
  }

  lemma ReadOne<R>(project: Projector<R>, files: Files, records: seq<(string, R)>, paths: seq<string>, i: nat)
    requires i < |paths| && Recorded(records) == Projected(project, files, Elements(paths[..i]))
    ensures Recorded(records + RecordOf(project, files, paths[i])) == Projected(project, files, Elements(paths[..i + 1]))
  {
    ElementsStep(paths, i);
    if paths[i] in files {
      InitAppend(records, RecordOf(project, files, paths[i]));
      AppendEmpty(records);
    } else {
      AppendEmpty(records);
    }
  }

  /** The records of those paths that are still there; none at all if a path cannot be read. */
  method Read<R>(project: Projector<R>, files: Files, paths: seq<string>) returns (ok: bool, records: seq<(string, R)>)
    ensures ok <==> AllSafe(Elements(paths))
    ensures ok ==> Recorded(records) == Projected(project, files, Elements(paths))
  {
    records := [];
    for i := 0 to |paths|
      invariant AllSafe(Elements(paths[..i]))
      invariant Recorded(records) == Projected(project, files, Elements(paths[..i]))
    {
      ElementsStep(paths, i);
      if !IsSafe(paths[i]) {
        return false, [];
      }
      ReadOne(project, files, records, paths, i);
      records := records + RecordOf(project, files, paths[i]);
    }
    assert paths[..|paths|] == paths;
    ok := true;
  }

  method Listed(s: set<string>) returns (l: seq<string>)
    ensures Elements(l) == s
  {
    l := [];
    var todo := s;
    while todo != {}
      invariant Elements(l) + todo == s
    {
      var p :| p in todo;
      l := l + [p];
      todo := todo - {p};
    }
  }

  method EmbedChangedPages<R>(project: Projector<R>, repo: WikiRepo, index: WikiPages<R>) returns (ok: bool)
    modifies index
    ensures ok <==> AllSafe(Changed(repo.parent, repo.files))
    ensures index.rows == Embedded(project, repo.parent, repo.files, old(index.rows))
  {
    var changed := repo.ChangedInHead();
    assert changed == Changed(repo.parent, repo.files);
    var touched := Listed(changed);
    var records;
    ok, records := Read(project, repo.files, touched);
    if ok {
      index.UpsertAll(records);
    }
  }

  lemma ProjectedMore<R>(project: Projector<R>, files: Files, base: map<string, R>, a: seq<string>, b: seq<string>)
    ensures base + Projected(project, files, Elements(a)) + Projected(project, files, Elements(b))
         == base + Projected(project, files, Elements(a + b))
  {
  }

  /** The pages of whole batches of 32 are written, and the next batch has one that cannot be read. */
  predicate StopsAt(pages: seq<string>, n: nat, written: set<string>) {
    && n < |pages| && n % 32 == 0 && written == Elements(pages[..n])
    && !AllSafe(Elements(Take(pages[n..], 32)))
  }

  /** Page after page read and written, one batch at a time; a batch with a page that cannot be
      read ends the run. */
  method WriteBatches<R>(project: Projector<R>, files: Files, pages: seq<string>, index: WikiPages<R>)
    returns (ok: bool, ghost written: set<string>)
    modifies index
    ensures ok <==> AllSafe(Elements(pages))
    ensures written <= Elements(pages) && AllSafe(written) && (ok ==> written == Elements(pages))
    ensures !ok ==> exists n :: StopsAt(pages, n, written)
    ensures index.rows == old(index.rows) + Projected(project, files, written)
  {
    var i := 0;
    while i < |pages|
      invariant i <= |pages| && AllSafe(Elements(pages[..i])) && (i % 32 == 0 || i == |pages|)
      invariant index.rows == old(index.rows) + Projected(project, files, Elements(pages[..i]))
    {
      var end := if i + BATCH_SIZE <= |pages| then i + BATCH_SIZE else |pages|;
      var batch := pages[i..end];
      assert pages[..end] == pages[..i] + batch;
      assert pages == pages[..i] + batch + pages[end..];
      var readable, records := Read(project, files, batch);
      if !readable {
        ElementsConcat(pages[..i] + batch, pages[end..]);
        ElementsConcat(pages[..i], batch);
        assert Take(pages[i..], 32) == batch;
        assert StopsAt(pages, i, Elements(pages[..i]));
        return false, Elements(pages[..i]);
      }
      index.UpsertAll(records);
      ProjectedMore(project, files, old(index.rows), pages[..i], batch);
      ElementsConcat(pages[..i], batch);
      i := end;
    }
    assert pages[..|pages|] == pages;
    ok, written := true, Elements(pages);
  }

  /** A rebuild: all rows of current pages go first, then every page is written, up to one that
      cannot be read. */
  method Reembed<R>(project: Projector<R>, repo: WikiRepo, index: WikiPages<R>)
    returns (ok: bool, ghost written: set<string>)
    modifies index
    ensures ok <==> AllSafe(Pages(repo.files))
    ensures written <= Pages(repo.files) && AllSafe(written) && (ok ==> written == Pages(repo.files))
    ensures index.rows == Rewritten(project, repo.files, old(index.rows), written)
    ensures written == Reached(repo.files, written)
  {
    var listed := repo.ListPages("");
    ListingOfRoot(repo.files);
    var pages := listed.value;
    index.DeleteAll(pages);
    ok, written := WriteBatches(project, repo.files, pages, index);
  }

  // ---------- agreement ----------

  /** A path counts when it is a page outside the bot's own. */
  predicate Counts(path: string) {
    IsPage(path) && !IsSystem(path)
  }

  predicate AgreesAt<R(==)>(project: Projector<R>, files: Files, rows: map<string, R>, path: string) {
    if path in files then path in rows && rows[path] == project(path, files[path]) else path !in rows
  }

  /** The rows are exactly the projections of the pages there are. */
  ghost predicate Agreement<R>(project: Projector<R>, files: Files, rows: map<string, R>) {
    forall p :: Counts(p) ==> AgreesAt(project, files, rows, p)
  }

  /** Embedding HEAD's pages brings agreement exactly when nothing else was out of step. */
  lemma EmbeddingRepairsExactly<R>(project: Projector<R>, parent: Files, files: Files, rows: map<string, R>)
    requires AllSafe(Changed(parent, files))
    ensures Agreement(project, files, Embedded(project, parent, files, rows)) <==>
              forall p | Counts(p) && !(p in files && p in Changed(parent, files)) ::
                AgreesAt(project, files, rows, p)
  {
    var after := Embedded(project, parent, files, rows);
    forall p | Counts(p)
      ensures p in files && p in Changed(parent, files) ==> AgreesAt(project, files, after, p)
      ensures !(p in files && p in Changed(parent, files)) ==>
                (AgreesAt(project, files, after, p) <==> AgreesAt(project, files, rows, p))
    {
    }
  }

  /** A rebuild, from any rows at all, brings agreement exactly when no row is left of a page that
      is gone: those rows it does not clear. */
  lemma RebuildRestoresExactly<R>(project: Projector<R>, files: Files, rows: map<string, R>)
    ensures Agreement(project, files, Rebuilt(project, files, rows)) <==>
              forall p | p in rows && Counts(p) :: p in files
  {
    var after := Rebuilt(project, files, rows);
    forall p | Counts(p)
      ensures p in files ==> AgreesAt(project, files, after, p)
      ensures p !in files ==> (p in after <==> p in rows)
    {
    }
  }

  // ---------- histories ----------

  datatype State<R> = State(files: Files, parent: Files, rows: map<string, R>)

  /** One job; the log entry of a removal is any text, and `reached` the pages a rebuild gets to if
      there is one it cannot read. */
  datatype Job =
    | Ingest(ops: seq<Op>)
    | Removal(source: string, entry: string)
    | Lint(report: string)
    | Rebuild(reached: set<string>)

  predicate IsCommitted(files: Files, ops: seq<Op>) {
    BundleError(ops).None? && Apply(files, ops) != files
  }

  function Embed<R>(project: Projector<R>, s: State<R>): State<R> {
    s.(rows := Embedded(project, s.parent, s.files, s.rows))
  }

  function CommitTo<R>(s: State<R>, files: Files): State<R> {
    s.(files := files, parent := s.files)
  }

  /** An empty bundle commits nothing and still embeds, whatever commit HEAD is. */
  function IngestStep<R>(project: Projector<R>, s: State<R>, ops: seq<Op>): State<R> {
    if ops == [] then Embed(project, s)
    else if BundleErrors(s.files, ops) != [] || !IsCommitted(s.files, ops) then s
    else Embed(project, CommitTo(s, Apply(s.files, ops)))
  }

  /** Rows of deleted pages are dropped; HEAD is embedded only if some page was patched. */
  function RemovalStep<R>(project: Projector<R>, s: State<R>, source: string, entry: string): State<R> {
    var left := FilesLeft(s.files, source, entry);
    if left == s.files then s
    else
      var next := CommitTo(s, left).(rows := s.rows - ToDelete(s.files, source));
      if ToPatch(s.files, source) != {} then Embed(project, next) else next
  }

  /** The pages a rebuild writes. */
  function Reached(files: Files, reached: set<string>): set<string> {
    if AllSafe(Pages(files)) then Pages(files) else set p | p in reached && p in Pages(files) && IsSafe(p)
  }

  function RebuildStep<R>(project: Projector<R>, s: State<R>, reached: set<string>): State<R> {
    s.(rows := Rewritten(project, s.files, s.rows, Reached(s.files, reached)))
  }

  ghost function JobStep<R>(project: Projector<R>, s: State<R>, job: Job): State<R> {
    match job
    case Ingest(ops) => IngestStep(project, s, ops)
    case Removal(source, entry) =>
      if !IsReadable(s.files) || IsRefused(s.files, source, entry) then s else RemovalStep(project, s, source, entry)
    case Lint(report) =>
      var ops := [Patch(LINT, report)];
      if IsCommitted(s.files, ops) then CommitTo(s, Apply(s.files, ops)) else s
    case Rebuild(reached) => RebuildStep(project, s, reached)
  }

  /** An ingest whose bundle passes the validator and the repository's checks leaves its operations applied;
      the index is brought up to HEAD if they changed something, or if there were none. */
  lemma IngestLands<R>(project: Projector<R>, s: State<R>, ops: seq<Op>)
    ensures var t := IngestStep(project, s, ops);
            var passes := BundleErrors(s.files, ops) == [] && BundleError(ops).None?;
            && t.files == (if passes then Apply(s.files, ops) else s.files)
            && t.parent == (if t.files == s.files then s.parent else s.files)
            && t.rows == if ops == [] || t.files != s.files then Embedded(project, t.parent, t.files, s.rows) else s.rows
  {
    if ops != [] {
      assert IsCommitted(s.files, ops) <==> BundleError(ops).None? && Apply(s.files, ops) != s.files;
    }
  }

  /** A lint pass leaves its report in its place and the index alone; a report over 50 KB is refused. */
  lemma LintJobLeavesItsReport<R>(project: Projector<R>, s: State<R>, report: string)
    ensures var t := JobStep(project, s, Job.Lint(report));
            && t.rows == s.rows
            && t.files == (if |report| <= 50 * 1024 then s.files["_meta/lint.json" := report] else s.files)
            && t.parent == if t.files == s.files then s.parent else s.files
  {
    LintLeavesItsReport(s.files, report);
    assert IsCommitted(s.files, [Patch(LINT, report)]) <==> CommitStep(s.files, Commit.Lint(report)) != s.files;
  }

  // ---------- the jobs as they run ----------

  /** Validate, commit, embed; a bundle refused on the way changes nothing. */
  method IngestJob<R>(project: Projector<R>, repo: WikiRepo, index: WikiPages<R>, ops: seq<Op>)
    returns (ok: bool)
    modifies repo, index
    ensures ok <==>
              && (ops == [] || (BundleErrors(old(repo.files), ops) == [] && IsCommitted(old(repo.files), ops)))
              && AllSafe(Changed(repo.parent, repo.files))
    ensures State(repo.files, repo.parent, index.rows) ==
              IngestStep(project, old(State(repo.files, repo.parent, index.rows)), ops)
  {
    if ops != [] {
      var errors, _, _ := Validate(repo, ops);
      if errors != [] {
        return false;
      }
      var refusal := repo.CommitBundle(ops);
      if refusal.Some? {
        return false;
      }
    }
    ok := EmbedChangedPages(project, repo, index);
  }

  /** A removal that has something to do and changes nothing by it: git finds nothing to commit. */
  predicate IsFutile(files: Files, source: string, entry: string) {
    && FilesLeft(files, source, entry) == files
    && ("log.md" in files || ToDelete(files, source) != {} || ToPatch(files, source) != {})
  }

  lemma PlannedNothing(files: Files, source: string, entry: string, toDelete: seq<string>, toPatch: Patches)
    requires IsPlan(files, source, toDelete, toPatch)
    ensures PlannedOps(files, source, entry, toDelete, toPatch) == [] <==>
              "log.md" !in files && ToDelete(files, source) == {} && ToPatch(files, source) == {}
    ensures toPatch == [] <==> ToPatch(files, source) == {}
  {
    NoElements(toDelete);
    NoElements(Map(First, toPatch));
  }

  /** What becomes of a planned bundle that is committed only if it is not empty. */
  lemma PlannedCommit(files: Files, source: string, entry: string, toDelete: seq<string>, toPatch: Patches)
    requires IsReadable(files) && IsPlan(files, source, toDelete, toPatch)
    requires Apply(files, PlannedOps(files, source, entry, toDelete, toPatch)) == FilesLeft(files, source, entry)
    ensures var ops := PlannedOps(files, source, entry, toDelete, toPatch);
            && (ops == [] ==> !IsRefused(files, source, entry) && !IsFutile(files, source, entry)
                              && FilesLeft(files, source, entry) == files)
            && (ops != [] ==> (BundleError(ops).Some? || Apply(files, ops) == files <==>
                                 IsRefused(files, source, entry) || IsFutile(files, source, entry)))
            && (BundleError(ops).Some? <==> IsRefused(files, source, entry))
            && (toPatch == [] <==> ToPatch(files, source) == {})
  {
    RemovalRefusedExactly(files, source, entry, toDelete, toPatch);
    PlannedNothing(files, source, entry, toDelete, toPatch);
  }

  /** Commit, drop the rows of deleted pages, embed if pages were patched; an embedding that fails is
      only logged. */
  method CommitRemoval<R>(project: Projector<R>, repo: WikiRepo, index: WikiPages<R>, ops: seq<Op>,
                          toDelete: seq<string>, patched: bool)
    returns (refusal: Option<CommitError>)
    requires repo.Valid()
    modifies repo, index
    ensures repo.Valid()
    ensures refusal.Some? <==> BundleError(ops).Some? || Apply(old(repo.files), ops) == old(repo.files)
    ensures refusal.Some? ==>
              repo.files == old(repo.files) && repo.parent == old(repo.parent) && index.rows == old(index.rows)
    ensures refusal.None? ==>
              var rows := old(index.rows) - Elements(toDelete);
              && repo.files == Apply(old(repo.files), ops) && repo.parent == old(repo.files)
              && index.rows == if patched then Embedded(project, repo.parent, repo.files, rows) else rows
  {
    refusal := repo.CommitBundle(ops);
    if refusal.None? {
      index.DeleteAll(toDelete);
      if patched {
        var embedded := EmbedChangedPages(project, repo, index);
      }
    }
  }

  /** Plan, commit, drop the rows of deleted pages, embed if pages were patched. It fails exactly if
      the walk cannot read some page, or the repository's checks or git refuse what is planned, and
      then nothing changes. */
  method RemovalJob<R>(project: Projector<R>, repo: WikiRepo, index: WikiPages<R>, source: string, entry: Entry)
    returns (refusal: Option<CommitError>)
    requires repo.Valid()
    modifies repo, index
    ensures repo.Valid()
    ensures var files := old(repo.files); var line := EntryFor(files, source, entry);
            && (refusal.Some? <==> !IsReadable(files) || IsRefused(files, source, line) || IsFutile(files, source, line))
            && State(repo.files, repo.parent, index.rows) ==
                 JobStep(project, State(files, old(repo.parent), old(index.rows)), Removal(source, line))
  {
    ghost var files, line := repo.files, EntryFor(repo.files, source, entry);
    var ok, toDelete, toPatch, ops := Plan(repo, source, entry);
    if !ok {
      return Some(BadPath);
    }
    PlannedCommit(files, source, line, toDelete, toPatch);
    refusal := None;
    if ops != [] {
      refusal := CommitRemoval(project, repo, index, ops, toDelete, toPatch != []);
    }
  }

  // ---------- every job keeps agreement ----------

  /** A commit, then the rows of its removed pages dropped and its changes embedded. */
  lemma CommitThenEmbed<R>(project: Projector<R>, before: Files, after: Files, rows: map<string, R>, dropped: set<string>)
    requires Agreement(project, before, rows)
    requires forall p | Counts(p) && p in before && p !in after :: p in dropped
    requires forall p | p in dropped :: p !in after
    requires AllSafe(Changed(before, after))
    ensures Agreement(project, after, Embedded(project, before, after, rows - dropped))
  {
    EmbeddingRepairsExactly(project, before, after, rows - dropped);
    forall p | Counts(p) && !(p in after && p in Changed(before, after))
      ensures AgreesAt(project, after, rows - dropped, p)
    {
      assert AgreesAt(project, before, rows, p);
      if p in after {
        assert Content(before, p) == Content(after, p);
      }
    }
  }

  lemma IngestKeepsAgreement<R>(project: Projector<R>, s: State<R>, ops: seq<Op>)
    requires Agreement(project, s.files, s.rows) && DeletesNothing(ops)
    requires AllSafe(Changed(s.parent, s.files)) && AllSafe(Changed(s.files, Apply(s.files, ops)))
    ensures Agreement(project, IngestStep(project, s, ops).files, IngestStep(project, s, ops).rows)
  {
    if ops == [] {
      EmbeddingRepairsExactly(project, s.parent, s.files, s.rows);
    } else {
      PagesStay(s.files, ops);
      assert s.rows - {} == s.rows;
      CommitThenEmbed(project, s.files, Apply(s.files, ops), s.rows, {});
    }
  }

  /** What a removal does to a page, by its verdict. */
  lemma RemovalAt(files: Files, source: string, entry: string, path: string)
    requires Counts(path) && path in files
    ensures var left := FilesLeft(files, source, entry);
            && (path !in left <==> path in ToDelete(files, source))
            && (Judged(files, source, path).Keep? ==> Content(left, path) == Content(files, path))
  {
    FilesLeftAt(files, source, entry, path);
    NoSystemName(path);
  }

  lemma DeletedIsGone(files: Files, source: string, entry: string)
    ensures forall p | p in ToDelete(files, source) :: p !in FilesLeft(files, source, entry)
  {
    forall p | p in ToDelete(files, source)
      ensures p !in FilesLeft(files, source, entry)
    {
      FilesLeftAt(files, source, entry, p);
    }
  }

  /** With no page to patch, dropping the rows of the deleted ones is enough. */
  lemma DropIsEnough<R>(project: Projector<R>, s: State<R>, source: string, entry: string)
    requires Agreement(project, s.files, s.rows) && ToPatch(s.files, source) == {}
    ensures Agreement(project, FilesLeft(s.files, source, entry), s.rows - ToDelete(s.files, source))
  {
    var left, gone := FilesLeft(s.files, source, entry), ToDelete(s.files, source);
    DeletedIsGone(s.files, source, entry);
    forall p | Counts(p)
      ensures AgreesAt(project, left, s.rows - gone, p)
    {
      assert AgreesAt(project, s.files, s.rows, p) && p !in ToPatch(s.files, source);
      if p in s.files {
        RemovalAt(s.files, source, entry, p);
        assert p !in gone ==> Content(left, p) == Content(s.files, p);
      }
    }
  }

  /** What a removal changes it has read, or is one of the bot's own two. */
  lemma RemovalChangesAreSafe(files: Files, source: string, entry: string)
    requires IsReadable(files)
    ensures AllSafe(Changed(files, FilesLeft(files, source, entry)))
  {
    BotFilesAreSafe();
    forall p | p in Changed(files, FilesLeft(files, source, entry))
      ensures IsSafe(p)
    {
      FilesLeftAt(files, source, entry, p);
      if !Judged(files, source, p).Keep? {
        JudgedPagesOnly(files, source, p);
      }
    }
  }

  lemma RemovalKeepsAgreement<R>(project: Projector<R>, s: State<R>, source: string, entry: string)
    requires Agreement(project, s.files, s.rows) && IsReadable(s.files)
    ensures var next := RemovalStep(project, s, source, entry); Agreement(project, next.files, next.rows)
  {
    var left, gone := FilesLeft(s.files, source, entry), ToDelete(s.files, source);
    RemovalChangesAreSafe(s.files, source, entry);
    if ToPatch(s.files, source) != {} {
      DeletedIsGone(s.files, source, entry);
      forall p | Counts(p) && p in s.files && p !in left
        ensures p in gone
      {
        RemovalAt(s.files, source, entry, p);
      }
      CommitThenEmbed(project, s.files, left, s.rows, gone);
    } else {
      DropIsEnough(project, s, source, entry);
    }
  }

  lemma SamePagesAgree<R>(project: Projector<R>, before: Files, after: Files, rows: map<string, R>)
    requires Agreement(project, before, rows)
    requires forall p | IsMarkdown(p) :: Content(after, p) == Content(before, p)
    ensures Agreement(project, after, rows)
  {
    forall p | Counts(p)
      ensures AgreesAt(project, after, rows, p)
    {
      assert AgreesAt(project, before, rows, p);
      assert Content(after, p) == Content(before, p);
    }
  }

  lemma RebuildKeepsAgreement<R>(project: Projector<R>, s: State<R>, reached: set<string>)
    requires Agreement(project, s.files, s.rows) && AllSafe(Pages(s.files))
    ensures Agreement(project, s.files, RebuildStep(project, s, reached).rows)
  {
    forall p | p in s.rows && Counts(p)
      ensures p in s.files
    {
      assert AgreesAt(project, s.files, s.rows, p);
    }
    RebuildRestoresExactly(project, s.files, s.rows);
  }

  // ---------- what can be read ----------

  /** The markdown files outside those that count, which are the ones called just `.md` and the
      bot's own, can be read. */
  predicate Tidy(files: Files) {
    forall p | p in files && IsMarkdown(p) && !Counts(p) :: IsSafe(p)
  }

  lemma TidyAndReadable(files: Files)
    requires Tidy(files) && IsReadable(files)
    ensures AllSafe(Pages(files)) && forall p | p in files && IsMarkdown(p) :: IsSafe(p)
  {
    forall p | p in files && IsMarkdown(p)
      ensures IsSafe(p)
    {
      if Counts(p) {
        assert p in Pages(files);
      }
    }
  }

  lemma ChangesAreSafe(before: Files, after: Files)
    requires Tidy(before) && Tidy(after) && IsReadable(before) && IsReadable(after)
    ensures AllSafe(Changed(before, after))
  {
    TidyAndReadable(before);
    TidyAndReadable(after);
  }

  /** A bundle as ingests commit them: it deletes nothing, and a file called just `.md` that it writes
      can be read. */
  predicate WritesTidily(ops: seq<Op>) {
    && DeletesNothing(ops)
    && forall op | op in ops && Writes(op) && IsMarkdown(Resolve(op.path)) ::
         IsPage(Resolve(op.path)) || IsSafe(Resolve(op.path))
  }

  lemma BundleStaysTidy(files: Files, ops: seq<Op>)
    requires Tidy(files) && WritesTidily(ops) && BundleError(ops).None?
    ensures Tidy(Apply(files, ops))
  {
    RefusedForSome(ops);
    forall p | p in Apply(files, ops) && IsMarkdown(p)
      ensures Counts(p) || IsSafe(p)
    {
      LastOpDecides(files, ops, p);
      if LastOp(ops, p).Some? && IsSystem(p) {
        assert OpError(LastOp(ops, p).value).None?;
        SystemIsSafe(LastOp(ops, p).value.path);
      }
    }
  }

  /** A page that cannot be read never goes away. */
  lemma UnreadableStays(files: Files, ops: seq<Op>)
    requires DeletesNothing(ops) && !IsReadable(files)
    ensures !IsReadable(Apply(files, ops))
  {
    PagesStay(files, ops);
  }

  lemma LeftStaysTidy(files: Files, source: string, entry: string)
    ensures Tidy(files) ==> Tidy(FilesLeft(files, source, entry))
    ensures IsReadable(files) ==> IsReadable(FilesLeft(files, source, entry))
  {
  }

  /** Rows are only ever written of pages that could be read. */
  predicate RowsReadable<R>(rows: map<string, R>) {
    forall p | p in rows :: IsSafe(p)
  }

  /** What every history keeps. */
  predicate Healthy<R>(s: State<R>) {
    && Tidy(s.files) && Tidy(s.parent) && RowsReadable(s.rows)
    && (IsReadable(s.files) ==> IsReadable(s.parent))
  }

  predicate IsJob(job: Job) {
    job.Ingest? ==> WritesTidily(job.ops)
  }

  lemma IngestStaysHealthy<R>(project: Projector<R>, s: State<R>, ops: seq<Op>)
    requires Healthy(s) && WritesTidily(ops)
    ensures Healthy(IngestStep(project, s, ops))
    ensures !IsReadable(s.files) ==> !IsReadable(IngestStep(project, s, ops).files)
  {
    if BundleError(ops).None? {
      BundleStaysTidy(s.files, ops);
    }
    if !IsReadable(s.files) {
      UnreadableStays(s.files, ops);
    }
  }

  lemma LintStaysHealthy<R>(s: State<R>, report: string)
    requires Healthy(s)
    ensures var files := Apply(s.files, [Patch(LINT, report)]);
            Tidy(files) && (IsReadable(files) <==> IsReadable(s.files))
  {
    LintChangesNoPage(s.files, report);
    forall p | IsMarkdown(p)
      ensures p in Apply(s.files, [Patch(LINT, report)]) <==> p in s.files
    {
      assert Content(Apply(s.files, [Patch(LINT, report)]), p) == Content(s.files, p);
    }
  }

  lemma RemovalStaysHealthy<R>(project: Projector<R>, s: State<R>, source: string, entry: string)
    requires Healthy(s) && IsReadable(s.files)
    ensures Healthy(RemovalStep(project, s, source, entry))
  {
    LeftStaysTidy(s.files, source, entry);
    RemovalChangesAreSafe(s.files, source, entry);
  }

  lemma JobStaysHealthy<R>(project: Projector<R>, s: State<R>, job: Job)
    requires Healthy(s) && IsJob(job)
    ensures Healthy(JobStep(project, s, job))
    ensures !IsReadable(s.files) ==> !IsReadable(JobStep(project, s, job).files)
  {
    match job
    case Ingest(ops) => IngestStaysHealthy(project, s, ops);
    case Removal(source, entry) =>
      if IsReadable(s.files) {
        RemovalStaysHealthy(project, s, source, entry);
      }
    case Lint(report) => LintStaysHealthy(s, report);
    case Rebuild(_) =>
  }

  lemma IngestAgrees<R>(project: Projector<R>, s: State<R>, ops: seq<Op>)
    requires Healthy(s) && WritesTidily(ops) && Agreement(project, s.files, s.rows)
    requires IsReadable(s.files) && IsReadable(IngestStep(project, s, ops).files)
    ensures Agreement(project, IngestStep(project, s, ops).files, IngestStep(project, s, ops).rows)
  {
    ChangesAreSafe(s.parent, s.files);
    if ops == [] {
      EmbeddingRepairsExactly(project, s.parent, s.files, s.rows);
    } else if BundleErrors(s.files, ops) == [] && IsCommitted(s.files, ops) {
      BundleStaysTidy(s.files, ops);
      ChangesAreSafe(s.files, Apply(s.files, ops));
      IngestKeepsAgreement(project, s, ops);
    }
  }

  lemma JobKeepsAgreement<R>(project: Projector<R>, s: State<R>, job: Job)
    requires Healthy(s) && IsJob(job) && Agreement(project, s.files, s.rows)
    requires IsReadable(s.files) && IsReadable(JobStep(project, s, job).files)
    ensures Agreement(project, JobStep(project, s, job).files, JobStep(project, s, job).rows)
  {
    match job
    case Ingest(ops) => IngestAgrees(project, s, ops);
    case Removal(source, entry) =>
      RemovalKeepsAgreement(project, s, source, entry);
    case Lint(report) =>
      LintChangesNoPage(s.files, report);
      SamePagesAgree(project, s.files, JobStep(project, s, job).files, s.rows);
    case Rebuild(reached) =>
      TidyAndReadable(s.files);
      RebuildKeepsAgreement(project, s, reached);
  }

  lemma UnreadableDisagrees<R>(project: Projector<R>, files: Files, rows: map<string, R>)
    requires RowsReadable(rows) && !IsReadable(files)
    ensures !Agreement(project, files, rows)
  {
    var p :| p in Pages(files) && !IsSystem(p) && !IsSafe(p);
    assert !AgreesAt(project, files, rows, p);
  }

  ghost function Run<R>(project: Projector<R>, s: State<R>, jobs: seq<Job>): State<R>
    decreases |jobs|
  {
    if jobs == [] then s else JobStep(project, Run(project, s, jobs[..|jobs| - 1]), jobs[|jobs| - 1])
  }

  /** Index agreement: over every history of ingests, removals, lint passes and rebuilds of a new
      wiki, the rows of all pages outside the bot's own are exactly the projections of their current
      content, although embedding looks at nothing but HEAD's changes, if and only if every such
      page can be read. */
  lemma {:induction false} IndexAgreement<R>(project: Projector<R>, seed: Files, jobs: seq<Job>)
    requires Tidy(seed) && forall p | p in Pages(seed) :: IsSystem(p)
    requires forall job | job in jobs :: IsJob(job)
    ensures var s := Run(project, State(seed, map[], map[]), jobs);
            Healthy(s) && (Agreement(project, s.files, s.rows) <==> IsReadable(s.files))
    decreases |jobs|
  {
    var s := Run(project, State(seed, map[], map[]), jobs);
    if jobs != [] {
      var n := |jobs| - 1;
      var before := Run(project, State(seed, map[], map[]), jobs[..n]);
      assert jobs[n] in jobs;
      IndexAgreement(project, seed, jobs[..n]);
      JobStaysHealthy(project, before, jobs[n]);
      if IsReadable(s.files) {
        JobKeepsAgreement(project, before, jobs[n]);
      }
    }
    if !IsReadable(s.files) {
      UnreadableDisagrees(project, s.files, s.rows);
    }
  }

  /** Once some page cannot be read, none of the jobs that follow brings agreement back. */
  lemma {:induction false} UnreadableForGood<R>(project: Projector<R>, seed: Files, jobs: seq<Job>, more: seq<Job>)
    requires Tidy(seed) && forall p | p in Pages(seed) :: IsSystem(p)
    requires forall job | job in jobs + more :: IsJob(job)
    requires !IsReadable(Run(project, State(seed, map[], map[]), jobs).files)
    ensures var s := Run(project, State(seed, map[], map[]), jobs + more);
            !IsReadable(s.files) && !Agreement(project, s.files, s.rows)
    decreases |more|
  {
    if more == [] {
      AppendEmpty(jobs);
    } else {
      var n := |more| - 1;
      InitAppend(jobs, more);
      assert forall job | job in jobs + more[..n] :: job in jobs + more;
      UnreadableForGood(project, seed, jobs, more[..n]);
      IndexAgreement(project, seed, jobs + more[..n]);
      assert more[n] in jobs + more;
      JobStaysHealthy(project, Run(project, State(seed, map[], map[]), jobs + more[..n]), more[n]);
    }
    IndexAgreement(project, seed, jobs + more);
  }

  /** A removal leaves a page that lost the source rewritten, and so changes the wiki. */
  lemma RemovalRewrites(files: Files, source: string, entry: string, path: string)
    requires Judged(files, source, path).Recite? && !HasTwin(files[path], source)
    ensures var left := FilesLeft(files, source, entry);
            && left != files
            && path in left && left[path] == Frontmatter.Rewrite(files[path], Remaining(files[path], source))
  {
    RecitedPage(files, source, path);
    RecitedIsLeft(files, source, entry, path);
    FilesLeftAt(files, source, entry, path);
    StillCites(files, source, entry, path);
  }

  lemma RemovalRow<R>(project: Projector<R>, s: State<R>, source: string, entry: string, path: string)
    requires Agreement(project, s.files, s.rows) && IsReadable(s.files)
    requires Judged(s.files, source, path).Recite? && !HasTwin(s.files[path], source)
    ensures var next := RemovalStep(project, s, source, entry);
            && path in next.rows
            && next.rows[path] == project(path, Frontmatter.Rewrite(s.files[path], Remaining(s.files[path], source)))
  {
    RemovalRewrites(s.files, source, entry, path);
    RemovalKeepsAgreement(project, s, source, entry);
    var next := RemovalStep(project, s, source, entry);
    assert AgreesAt(project, next.files, next.rows, path);
  }

  /** Writer and reader together: once a removal has run, the row of a page that lost the source
      lists exactly the page's other ids, as they read back from their quotes, and not the source. */
  lemma RowsForgetTheSource(embed: string -> Projection.Vector, project: Projector<Projection.Row>,
                            s: State<Projection.Row>, source: string, entry: string, path: string)
    requires forall p, content :: project(p, content) == Projection.Project(embed, p, content)
    requires Agreement(project, s.files, s.rows) && IsReadable(s.files)
    requires Judged(s.files, source, path).Recite? && !HasTwin(s.files[path], source)
    ensures var next := RemovalStep(project, s, source, entry);
            && path in next.rows && next.rows[path].sourceIds == Frontmatter.Reread(Remaining(s.files[path], source))
            && source !in next.rows[path].sourceIds
  {
    var ids := Remaining(s.files[path], source);
    RemovalRow(project, s, source, entry, path);
    RecitedPage(s.files, source, path);
    Frontmatter.RereadMembers(ids, source);
    RemainingIds(s.files[path], source);
    Projection.IndexReadsRewrite(s.files[path], ids);
    SourceIdsOf(embed, path, Frontmatter.Rewrite(s.files[path], ids));
  }

  lemma SourceIdsOf(embed: string -> Projection.Vector, path: string, content: string)
    ensures Projection.Project(embed, path, content).sourceIds == Projection.MetaOf(content).sourceIds
  {
  }
}
