/** Checking a bundle before it is committed, and what the checks keep true of the wiki. */
module Validator {
  import opened Frontmatter
  import opened Paths
  import opened Seqs
  import opened Text
  import opened Wiki
  import opened Wikilinks
  import opened Wrappers

  datatype ValidationError =
    | Empty
    | NoFrontmatter(path: string)
    | MissingKey(path: string, key: string)
    | UnresolvedLink(path: string, target: string)

  /** Some frontmatter line begins with the key. */
  predicate LineHasKey(fm: string, key: string) {
    exists line :: line in Lines(fm) && StartsWith(TrimStart(line), key + ":")
  }

  function KeyErrors(path: string, fm: string, key: string): seq<ValidationError> {
    if LineHasKey(fm, key) then [] else [MissingKey(path, key)]
  }

  function FrontmatterErrors(path: string, content: string): seq<ValidationError> {
    match Frame(content)
    case None => [NoFrontmatter(path)]
    case Some(p) => KeyErrors(path, p.fm, "title") + KeyErrors(path, p.fm, "kind")
  }

  function LinkError(path: string, universe: set<string>): string -> seq<ValidationError> {
    (target: string) => if PathOnly(target) in universe then [] else [UnresolvedLink(path, target)]
  }

  function PageErrors(path: string, content: string, universe: set<string>): seq<ValidationError> {
    if IsSystem(path) then []
    else FrontmatterErrors(path, content) + FlatMap(LinkError(path, universe), Links(content))
  }

  function OpErrors(universe: set<string>): Op -> seq<ValidationError> {
    (op: Op) => if Writes(op) then PageErrors(op.path, op.content, universe) else []
  }

  /** The pages there will be, as operation after operation creates and deletes them. */
  function AddOp(universe: set<string>, op: Op): set<string> {
    match op
    case Create(path, _) => universe + {path}
    case Delete(path) => universe - {path}
    case _ => universe
  }

  function PostUniverse(existing: set<string>, ops: seq<Op>): set<string> {
    FoldLeft(AddOp, existing, ops)
  }

  function BundleErrors(files: Files, ops: seq<Op>): seq<ValidationError> {
    if ops == [] then [Empty] else FlatMap(OpErrors(PostUniverse(Pages(files), ops)), ops)
  }

  // ---------- the checks as they run ----------

  method HasKey(fm: string, key: string) returns (found: bool)
    ensures found <==> LineHasKey(fm, key)
  {
    var lines, needle := Lines(fm), key + ":";
    for i := 0 to |lines|
      invariant forall j | 0 <= j < i :: !StartsWith(TrimStart(lines[j]), needle)
    {
      if StartsWith(TrimStart(lines[i]), needle) {
        return true;
      }
    }
    return false;
  }

  method CheckTargets(path: string, targets: seq<string>, universe: set<string>)
    returns (errors: seq<ValidationError>)
    ensures errors == FlatMap(LinkError(path, universe), targets)
  {
    errors := [];
    ghost var f := LinkError(path, universe);
    for i := 0 to |targets|
      invariant errors == FlatMap(f, targets[..i])
    {
      FlatMapStep(f, targets, i);
      if PathOnly(targets[i]) in universe {
        AppendEmpty(errors);
      } else {
        errors := errors + [UnresolvedLink(path, targets[i])];
      }
    }
    assert targets[..|targets|] == targets;
  }

  method CheckPage(path: string, content: string, universe: set<string>) returns (errors: seq<ValidationError>)
    ensures errors == PageErrors(path, content, universe)
  {
    errors := [];
    if !IsSystem(path) {
      match Frame(content) {
        case None => errors := [NoFrontmatter(path)];
        case Some(p) =>
          var title := HasKey(p.fm, "title");
          var kind := HasKey(p.fm, "kind");
          errors := (if title then [] else [MissingKey(path, "title")]) + (if kind then [] else [MissingKey(path, "kind")]);
      }
      var targets := ExtractWikilinks(content);
      var linkErrors := CheckTargets(path, targets, universe);
      errors := errors + linkErrors;
    }
  }

  method PostPages(repo: WikiRepo, ops: seq<Op>) returns (universe: set<string>)
    ensures universe == PostUniverse(Pages(repo.files), ops)
  {
    var existing := repo.ListPages("");
    ListingOfRoot(repo.files);
    universe := Elements(existing.value);
    for i := 0 to |ops|
      invariant universe == PostUniverse(Pages(repo.files), ops[..i])
    {
      FoldStep(AddOp, Pages(repo.files), ops, i);
      match ops[i] {
        case Create(path, _) => universe := universe + {path};
        case Delete(path) => universe := universe - {path};
        case Patch(_, _) =>
        case Link(_, _) =>
      }
    }
    assert ops[..|ops|] == ops;
  }

  function Touched(ops: seq<Op>): set<string> {
    set op | op in ops && Writes(op) :: op.path
  }

  lemma TouchedStep(ops: seq<Op>, i: nat)
    requires i < |ops|
    ensures Touched(ops[..i + 1]) == Touched(ops[..i]) + if Writes(ops[i]) then {ops[i].path} else {}
    ensures TotalSize(ops[i..]) == Size(ops[i]) + TotalSize(ops[i + 1..])
  {
    TakeNext(ops, i);
    assert ops[i..][1..] == ops[i + 1..];
  }

  method Validate(repo: WikiRepo, ops: seq<Op>)
    returns (errors: seq<ValidationError>, touched: set<string>, bytes: nat)
    ensures errors == BundleErrors(repo.files, ops)
    ensures touched == Touched(ops) && bytes == TotalSize(ops)
  {
    errors, touched, bytes := [], {}, 0;
    if ops == [] {
      return [Empty], {}, 0;
    }
    var universe := PostPages(repo, ops);
    for i := 0 to |ops|
      invariant errors == FlatMap(OpErrors(universe), ops[..i])
      invariant touched == Touched(ops[..i])
      invariant bytes + TotalSize(ops[i..]) == TotalSize(ops)
    {
      FlatMapStep(OpErrors(universe), ops, i);
      TouchedStep(ops, i);
      if Writes(ops[i]) {
        touched := touched + {ops[i].path};
        bytes := bytes + |ops[i].content|;
        var pageErrors := CheckPage(ops[i].path, ops[i].content, universe);
        errors := errors + pageErrors;
      }
    }
    assert ops[..|ops|] == ops;
  }

  // ---------- what passing means ----------

  predicate Keyed(content: string, key: string) {
    Frame(content).Some? && LineHasKey(Frame(content).value.fm, key)
  }

  predicate HasKeys(content: string) {
    Keyed(content, "title") && Keyed(content, "kind")
  }

  predicate WellFormed(content: string, universe: set<string>) {
    HasKeys(content) && forall t | t in Links(content) :: PathOnly(t) in universe
  }

  lemma FrontmatterPasses(path: string, content: string)
    ensures FrontmatterErrors(path, content) == [] <==> HasKeys(content)
  {
  }

  lemma LinksPass(path: string, targets: seq<string>, universe: set<string>)
    ensures FlatMap(LinkError(path, universe), targets) == [] <==> forall t | t in targets :: PathOnly(t) in universe
  {
    var f := LinkError(path, universe);
    FlatMapEmpty(f, targets);
    forall t | t in targets
      ensures f(t) == [] <==> PathOnly(t) in universe
    {
    }
  }

  lemma NoPageErrors(path: string, content: string, universe: set<string>)
    ensures PageErrors(path, content, universe) == [] <==> IsSystem(path) || WellFormed(content, universe)
  {
    FrontmatterPasses(path, content);
    LinksPass(path, Links(content), universe);
  }

  /** A bundle passes exactly when it has operations and every page it writes, other than the
      bot's own files, is well formed among the pages there will be. */
  lemma PassesExactly(files: Files, ops: seq<Op>)
    ensures BundleErrors(files, ops) == [] <==>
              && ops != []
              && forall op | op in ops && Writes(op) ::
                   IsSystem(op.path) || WellFormed(op.content, PostUniverse(Pages(files), ops))
  {
    var universe := PostUniverse(Pages(files), ops);
    FlatMapEmpty(OpErrors(universe), ops);
    forall op | op in ops && Writes(op)
      ensures OpErrors(universe)(op) == [] <==> IsSystem(op.path) || WellFormed(op.content, universe)
    {
      NoPageErrors(op.path, op.content, universe);
    }
  }

  /** The page has this fault, said of the path it is given under. */
  predicate HasFault(path: string, content: string, universe: set<string>, e: ValidationError) {
    match e
    case Empty => false
    case NoFrontmatter(p) => p == path && Frame(content).None?
    case MissingKey(p, key) =>
      p == path && (key == "title" || key == "kind") && Frame(content).Some?
      && forall line | line in Lines(Frame(content).value.fm) :: !StartsWith(TrimStart(line), key + ":")
    case UnresolvedLink(p, target) => p == path && target in Links(content) && PathOnly(target) !in universe
  }

  lemma KeyFault(path: string, fm: string, key: string, e: ValidationError)
    ensures e in KeyErrors(path, fm, key) <==>
              e == MissingKey(path, key) && forall line | line in Lines(fm) :: !StartsWith(TrimStart(line), key + ":")
  {
  }

  lemma LinkFaults(path: string, targets: seq<string>, universe: set<string>, e: ValidationError)
    ensures e in FlatMap(LinkError(path, universe), targets) <==>
              e.UnresolvedLink? && e.path == path && e.target in targets && PathOnly(e.target) !in universe
  {
    FlatMapMembers(LinkError(path, universe), targets);
  }

  lemma PageFaults(path: string, content: string, universe: set<string>, e: ValidationError)
    ensures e in PageErrors(path, content, universe) <==> !IsSystem(path) && HasFault(path, content, universe, e)
  {
    LinkFaults(path, Links(content), universe, e);
    if Frame(content).Some? {
      KeyFault(path, Frame(content).value.fm, "title", e);
      KeyFault(path, Frame(content).value.fm, "kind", e);
    }
  }

  /** What is reported: an empty bundle, and otherwise just the faults of the pages written outside the
      bot's own, each under the path it was written to. */
  lemma ErrorsAreFaults(files: Files, ops: seq<Op>, e: ValidationError)
    ensures e in BundleErrors(files, ops) <==>
              if ops == [] then e == Empty
              else exists op :: op in ops && Writes(op) && !IsSystem(op.path)
                                && HasFault(op.path, op.content, PostUniverse(Pages(files), ops), e)
  {
    var universe := PostUniverse(Pages(files), ops);
    FlatMapMembers(OpErrors(universe), ops);
    forall op | op in ops && Writes(op)
      ensures e in OpErrors(universe)(op) <==> !IsSystem(op.path) && HasFault(op.path, op.content, universe, e)
    {
      PageFaults(op.path, op.content, universe, e);
    }
  }

  // ---------- link closure ----------

  /** The paths a bundle creates that are not the listed names of what they name. */
  function OddCreated(ops: seq<Op>): set<string> {
    set op | op in ops && op.Create? && IsOdd(op.path) :: op.path
  }

  /** The pages the validator counts on are pages the commit leaves on disk, deletes included,
      as far as their paths are the names they are listed by. */
  lemma {:induction false} UniverseIsOnDisk(files: Files, ops: seq<Op>)
    requires forall op | op in ops && op.Delete? :: Resolve(op.path) == op.path
    ensures forall x | x in PostUniverse(Pages(files), ops) && !IsOdd(x) :: x in Pages(Apply(files, ops))
    decreases |ops|
  {
    if ops != [] {
      var n := |ops| - 1;
      UniverseIsOnDisk(files, ops[..n]);
      FoldStep(ApplyOp, files, ops, n);
      FoldStep(AddOp, Pages(files), ops, n);
      assert ops[..n + 1] == ops;
      assert ops[n] in ops;
    }
  }

  predicate DeletesNothing(ops: seq<Op>) {
    forall op | op in ops :: !op.Delete?
  }

  predicate WritesMarkdown(ops: seq<Op>) {
    forall op | op in ops && Writes(op) :: IsMarkdown(op.path)
  }

  /** Without deletes that universe is the pages there are and the paths created, as given. */
  lemma {:induction false} UniverseGrows(existing: set<string>, ops: seq<Op>)
    requires DeletesNothing(ops)
    ensures PostUniverse(existing, ops) == existing + set op | op in ops && op.Create? :: op.path
    decreases |ops|
  {
    if ops != [] {
      var n := |ops| - 1;
      UniverseGrows(existing, ops[..n]);
      FoldStep(AddOp, existing, ops, n);
      assert ops[..n + 1] == ops && ops == ops[..n] + [ops[n]];
      assert ops[n] in ops;
    }
  }

  /** Every page outside the bot's own is well formed, its links resolved among the pages. */
  predicate Closed(files: Files) {
    forall p | p in Pages(files) && !IsSystem(p) :: WellFormed(files[p], Pages(files))
  }

  lemma PagesStay(files: Files, ops: seq<Op>)
    requires DeletesNothing(ops)
    ensures files.Keys <= Apply(files, ops).Keys
  {
    forall p | p in files
      ensures p in Apply(files, ops)
    {
      LastOpDecides(files, ops, p);
    }
  }

  /** The page an operation writes, when it is one outside the bot's own, was checked. */
  lemma WrittenIsChecked(files: Files, ops: seq<Op>, op: Op)
    requires BundleErrors(files, ops) == [] && WritesMarkdown(ops)
    requires op in ops && Writes(op) && !IsSystem(Resolve(op.path))
    ensures WellFormed(op.content, PostUniverse(Pages(files), ops))
  {
    PassesExactly(files, ops);
    if IsSystem(op.path) {
      SystemStaysSystem(op.path);
    }
  }

  /** Every link goes to one of the pages, unless it is spelled as no page is listed. */
  predicate LinksResolve(content: string, pages: set<string>) {
    forall t | t in Links(content) :: IsOdd(PathOnly(t)) || PathOnly(t) in pages
  }

  /** Closed but for the links that are spelled oddly. */
  predicate NearlyClosed(files: Files) {
    forall p | p in Pages(files) && !IsSystem(p) :: HasKeys(files[p]) && LinksResolve(files[p], Pages(files))
  }

  predicate LinksOddly(content: string) {
    exists t :: t in Links(content) && IsOdd(PathOnly(t))
  }

  /** An odd path is no page: it is exactly the odd links that dangle. */
  lemma ClosedUnlessOdd(files: Files)
    requires OnDisk(files) && NearlyClosed(files)
    ensures Closed(files) <==> forall p | p in Pages(files) && !IsSystem(p) :: !LinksOddly(files[p])
  {
    forall p | p in Pages(files) && !IsSystem(p)
      ensures WellFormed(files[p], Pages(files)) <==> !LinksOddly(files[p])
    {
      assert forall x | x in Pages(files) :: !IsOdd(x);
    }
  }

  /** A bundle that passes and deletes nothing leaves every page with a title and a kind, and adds
      no dangling link but oddly spelled ones: a page it writes was checked in the form it is left
      in, and the links of the others still resolve. */
  lemma CommitKeepsNearlyClosed(files: Files, ops: seq<Op>)
    requires NearlyClosed(files) && BundleErrors(files, ops) == []
    requires DeletesNothing(ops) && WritesMarkdown(ops)
    ensures NearlyClosed(Apply(files, ops))
  {
    var after := Apply(files, ops);
    UniverseIsOnDisk(files, ops);
    PagesStay(files, ops);
    forall p | p in Pages(after) && !IsSystem(p)
      ensures HasKeys(after[p]) && LinksResolve(after[p], Pages(after))
    {
      LastOpDecides(files, ops, p);
      if LastOp(ops, p).Some? {
        WrittenIsChecked(files, ops, LastOp(ops, p).value);
      }
    }
  }

  /** It keeps the wiki closed if and only if no page it writes is left with a link to a path the
      bundle creates under an odd name. */
  lemma CommitKeepsClosedExactly(files: Files, ops: seq<Op>)
    requires OnDisk(files) && Closed(files) && BundleErrors(files, ops) == []
    requires DeletesNothing(ops) && WritesMarkdown(ops)
    ensures Closed(Apply(files, ops)) <==>
              forall p | LastOp(ops, p).Some? && IsPage(p) && !IsSystem(p) ::
                !LinksTo(LastOp(ops, p).value.content, OddCreated(ops))
  {
    var after := Apply(files, ops);
    PagesAfter(files, ops);
    forall p | IsPage(p) && !IsSystem(p)
      ensures LastOp(ops, p).None? ==> (p in after ==> WellFormed(after[p], Pages(after)))
      ensures LastOp(ops, p).Some? ==>
                && p in after
                && (WellFormed(after[p], Pages(after)) <==> !LinksTo(LastOp(ops, p).value.content, OddCreated(ops)))
    {
      LastOpDecides(files, ops, p);
      if LastOp(ops, p).Some? {
        WrittenIsChecked(files, ops, LastOp(ops, p).value);
        LinksAmong(LastOp(ops, p).value.content, PostUniverse(Pages(files), ops), Pages(after), OddCreated(ops));
      } else if p in after {
        assert WellFormed(files[p], Pages(files));
      }
    }
  }

  /** Of what the validator counted on, the bundle's odd paths are exactly what is not there. */
  lemma PagesAfter(files: Files, ops: seq<Op>)
    requires OnDisk(files) && DeletesNothing(ops)
    ensures var universe, pages := PostUniverse(Pages(files), ops), Pages(Apply(files, ops));
            && Pages(files) <= pages && (forall x | x in universe :: x in pages <==> x !in OddCreated(ops))
            && OddCreated(ops) <= universe
  {
    UniverseIsOnDisk(files, ops);
    UniverseGrows(Pages(files), ops);
    PagesStay(files, ops);
    ApplyStaysOnDisk(files, ops);
  }

  lemma LinksAmong(content: string, universe: set<string>, pages: set<string>, odd: set<string>)
    requires WellFormed(content, universe) && forall x | x in universe :: x in pages <==> x !in odd
    ensures WellFormed(content, pages) <==> !LinksTo(content, odd)
  {
  }

  /** Commits other than removals. */
  datatype Commit = Distill(ops: seq<Op>) | Lint(report: string)

  /** Bundles as the agent stages them. */
  predicate IsStaged(c: Commit) {
    c.Distill? ==> DeletesNothing(c.ops) && WritesMarkdown(c.ops)
  }

  /** A bundle is committed only if it passes the validator and then the repository's checks. */
  function CommitStep(files: Files, c: Commit): Files {
    match c
    case Distill(ops) =>
      if BundleErrors(files, ops) == [] && BundleError(ops).None? then Apply(files, ops) else files
    case Lint(report) =>
      var ops := [Patch(LINT, report)];
      if BundleError(ops).None? then Apply(files, ops) else files
  }

  lemma LintChangesNoPage(files: Files, report: string)
    ensures var after := Apply(files, [Patch(LINT, report)]);
            && Pages(after) == Pages(files)
            && forall p | IsMarkdown(p) :: Content(after, p) == Content(files, p)
  {
    FoldOne(ApplyOp, files, Patch(LINT, report));
    LintPath();
  }

  const LINT := "_meta/lint.json"

  lemma LintPath()
    ensures Resolve(LINT) == LINT && !IsMarkdown(LINT) && IsSafe(LINT)
  {
    var name := LINT[6..];
    assert LINT == META + (['/'] + name);
    assert name == "lint.json";
    TwoNamesResolve(META, name);
    TwoNamesAreSafe(META, name);
    assert LINT[|LINT| - 3..] == "son";
  }

  /** A lint pass leaves its report in its place and nothing else; a report over 50 KB is refused. */
  lemma LintLeavesItsReport(files: Files, report: string)
    ensures CommitStep(files, Commit.Lint(report)) ==
              if |report| <= 50 * 1024 then files["_meta/lint.json" := report] else files
    ensures BundleError([Patch(LINT, report)]).None? <==> |report| <= 50 * 1024
  {
    var ops := [Patch(LINT, report)];
    FoldOne(ApplyOp, files, ops[0]);
    LintPath();
    RefusedForSome(ops);
    AtFaultOne(ops[0]);
    FaultIs(ops[0]);
  }

  lemma StepKeepsNearlyClosed(files: Files, c: Commit)
    requires OnDisk(files) && NearlyClosed(files) && IsStaged(c)
    ensures OnDisk(CommitStep(files, c)) && NearlyClosed(CommitStep(files, c))
  {
    match c
    case Distill(ops) =>
      ApplyStaysOnDisk(files, ops);
      if BundleErrors(files, ops) == [] {
        CommitKeepsNearlyClosed(files, ops);
      }
    case Lint(report) =>
      ApplyStaysOnDisk(files, [Patch(LINT, report)]);
      LintKeepsNearlyClosed(files, report);
  }

  lemma LintKeepsNearlyClosed(files: Files, report: string)
    requires NearlyClosed(files)
    ensures NearlyClosed(Apply(files, [Patch(LINT, report)]))
  {
    var after := Apply(files, [Patch(LINT, report)]);
    LintChangesNoPage(files, report);
    forall p | p in Pages(after) && !IsSystem(p)
      ensures HasKeys(after[p]) && LinksResolve(after[p], Pages(after))
    {
      assert Content(after, p) == Content(files, p);
    }
  }

  /** From a wiki that has only the bot's own pages, as a new one has, every run of distill and
      lint commits, whatever the agent stages and whichever commits are refused, leaves every
      other page with a title, a kind and no dangling link but oddly spelled ones; so it leaves the
      wiki closed if and only if it leaves none of those. */
  lemma {:induction false} LinkClosure(seed: Files, run: seq<Commit>)
    requires OnDisk(seed) && forall p | p in Pages(seed) :: IsSystem(p)
    requires forall c | c in run :: IsStaged(c)
    ensures var files := FoldLeft(CommitStep, seed, run);
            && OnDisk(files) && NearlyClosed(files)
            && (Closed(files) <==> forall p | p in Pages(files) && !IsSystem(p) :: !LinksOddly(files[p]))
    decreases |run|
  {
    if run != [] {
      var n := |run| - 1;
      LinkClosure(seed, run[..n]);
      FoldStep(CommitStep, seed, run, n);
      assert run[..n + 1] == run && run[n] in run;
      StepKeepsNearlyClosed(FoldLeft(CommitStep, seed, run[..n]), run[n]);
    }
    ClosedUnlessOdd(FoldLeft(CommitStep, seed, run));
  }
}
