/** The wiki repository of one tenant: its files, bundles of edits, and what a commit changes. */
module Wiki {
  import opened Paths
  import opened Seqs
  import opened Text
  import opened Wrappers
  import Slug

  const PAGE_CAP: nat := 50 * 1024
  const BUNDLE_CAP: nat := 500 * 1024

  /** The tree: what each file holds, by the path the file system has it under. */
  type Files = map<string, string>

  predicate OnDisk(files: Files) {
    forall p | p in files :: Resolve(p) == p
  }

  datatype Op =
    | Create(path: string, content: string)
    | Patch(path: string, content: string)
    | Delete(path: string)
    | Link(from: string, to: string)

  datatype CommitError = PageTooLarge | BadPath | BundleTooLarge | NothingToCommit

  /** Probing for a free path puts its number after the extension: what it returns for a taken
      path is not the path of a page. */
  lemma NumberedPathIsNoPage(path: string, i: nat)
    requires i >= 2
    ensures !IsPage(Slug.Candidate(path, i))
  {
    var digits, name := Slug.Decimal(i), Slug.Candidate(path, i);
    assert '0' <= digits[|digits| - 1] <= '9' && name[|name| - 1] == digits[|digits| - 1];
    assert |name| >= 3 ==> name[|name| - 3..][2] == name[|name| - 1];
  }

  predicate Writes(op: Op) {
    op.Create? || op.Patch?
  }

  function Size(op: Op): nat {
    if Writes(op) then |op.content| else 0
  }

  function TotalSize(ops: seq<Op>): nat {
    if ops == [] then 0 else Size(ops[0]) + TotalSize(ops[1..])
  }

  function OpError(op: Op): Option<CommitError> {
    match op
    case Delete(path) => if IsSafe(path) then None else Some(BadPath)
    case Link(from, to) => if IsSafe(from) && IsSafe(to) then None else Some(BadPath)
    case _ =>
      if |op.content| > PAGE_CAP then Some(PageTooLarge) else if IsSafe(op.path) then None else Some(BadPath)
  }

  /** The first operation at fault decides; the total is checked after all of them. */
  function Refusal(ops: seq<Op>): Option<CommitError> {
    if ops == [] then None
    else if OpError(ops[0]).Some? then OpError(ops[0])
    else Refusal(ops[1..])
  }

  function BundleError(ops: seq<Op>): Option<CommitError> {
    if Refusal(ops).Some? then Refusal(ops)
    else if TotalSize(ops) > BUNDLE_CAP then Some(BundleTooLarge)
    else None
  }

  function ApplyOp(files: Files, op: Op): Files {
    match op
    case Create(path, content) => files[Resolve(path) := content]
    case Patch(path, content) => files[Resolve(path) := content]
    case Delete(path) => files - {Resolve(path)}
    case Link(_, _) => files
  }

  function Apply(files: Files, ops: seq<Op>): Files {
    FoldLeft(ApplyOp, files, ops)
  }

  lemma {:induction false} FaultyForSome(ops: seq<Op>)
    ensures Refusal(ops).Some? <==> AtFault(ops)
  {
    if ops != [] {
      FaultyForSome(ops[1..]);
      HeadTail(ops);
    }
  }

  /** Some operation does not pass on its own. */
  predicate AtFault(ops: seq<Op>) {
    exists op :: op in ops && OpError(op).Some?
  }

  lemma AtFaultConcat(a: seq<Op>, b: seq<Op>)
    ensures AtFault(a + b) <==> AtFault(a) || AtFault(b)
  {
    assert forall op :: op in a + b <==> op in a || op in b;
  }

  lemma AtFaultOne(op: Op)
    ensures AtFault([op]) <==> OpError(op).Some?
  {
    assert op in [op];
  }

  /** The checks refuse a bundle exactly if some operation is at fault or the writes together are
      over the bundle cap. */
  lemma RefusedForSome(ops: seq<Op>)
    ensures BundleError(ops).Some? <==> AtFault(ops) || TotalSize(ops) > BUNDLE_CAP
  {
    FaultyForSome(ops);
  }

  /** What is wrong with an operation on its own: a page over 50 KB, or a path that is not safe. */
  predicate IsAtFault(op: Op, e: CommitError) {
    match op
    case Delete(path) => e == BadPath && !IsSafe(path)
    case Link(from, to) => e == BadPath && (!IsSafe(from) || !IsSafe(to))
    case _ => if |op.content| > 50 * 1024 then e == PageTooLarge else e == BadPath && !IsSafe(op.path)
  }

  lemma FaultIs(op: Op)
    ensures forall e :: IsAtFault(op, e) <==> OpError(op) == Some(e)
    ensures OpError(op).None? <==> forall e :: !IsAtFault(op, e)
  {
    if OpError(op).Some? {
      assert IsAtFault(op, OpError(op).value);
    }
  }

  lemma {:induction false} FirstAtFault(ops: seq<Op>, i: nat, e: CommitError)
    requires i < |ops| && IsAtFault(ops[i], e) && forall j, d | 0 <= j < i :: !IsAtFault(ops[j], d)
    ensures Refusal(ops) == Some(e)
    decreases |ops|
  {
    FaultIs(ops[0]);
    if i > 0 {
      FirstAtFault(ops[1..], i - 1, e);
    }
  }

  lemma {:induction false} NoneAtFault(ops: seq<Op>)
    requires forall j, d | 0 <= j < |ops| :: !IsAtFault(ops[j], d)
    ensures Refusal(ops).None?
    decreases |ops|
  {
    if ops != [] {
      FaultIs(ops[0]);
      NoneAtFault(ops[1..]);
    }
  }

  /** The error a bundle is refused with: that of the first operation at fault, or that the pages it
      writes are together over 500 KB. */
  lemma RefusedWith(ops: seq<Op>)
    ensures forall i, e | 0 <= i < |ops| && IsAtFault(ops[i], e) && (forall j, d | 0 <= j < i :: !IsAtFault(ops[j], d)) ::
              BundleError(ops) == Some(e)
    ensures (forall i, e | 0 <= i < |ops| :: !IsAtFault(ops[i], e)) ==>
              BundleError(ops) == if TotalSize(ops) > 500 * 1024 then Some(BundleTooLarge) else None
  {
    forall i, e | 0 <= i < |ops| && IsAtFault(ops[i], e) && (forall j, d | 0 <= j < i :: !IsAtFault(ops[j], d))
      ensures BundleError(ops) == Some(e)
    {
      FirstAtFault(ops, i, e);
    }
    if forall i, e | 0 <= i < |ops| :: !IsAtFault(ops[i], e) {
      NoneAtFault(ops);
    }
  }

  lemma {:induction false} TotalSizeConcat(a: seq<Op>, b: seq<Op>)
    ensures TotalSize(a + b) == TotalSize(a) + TotalSize(b)
  {
    if a == [] {
      AppendEmpty(b);
    } else {
      TailAppend(a, b);
      TotalSizeConcat(a[1..], b);
    }
  }

  lemma {:induction false} ApplyStaysOnDisk(files: Files, ops: seq<Op>)
    requires OnDisk(files)
    ensures OnDisk(Apply(files, ops))
    decreases |ops|
  {
    if ops != [] {
      var n := |ops| - 1;
      ApplyStaysOnDisk(files, ops[..n]);
      FoldStep(ApplyOp, files, ops, n);
      assert ops[..n + 1] == ops;
      if !ops[n].Link? {
        ResolveTwice(ops[n].path);
      }
    }
  }

  // ---------- the last word on each path ----------

  function Content(files: Files, path: string): Option<string> {
    if path in files then Some(files[path]) else None
  }

  /** What reading a path gives: an error if it is not safe, nothing if there is no such file. */
  function PageAt(files: Files, path: string): Result<Option<string>, CommitError> {
    if IsSafe(path) then Ok(Content(files, Resolve(path))) else Err(BadPath)
  }

  /** The operation names the file at `path`. */
  predicate Touches(op: Op, path: string) {
    !op.Link? && Resolve(op.path) == path
  }

  /** The last operation that names the file. */
  function LastOp(ops: seq<Op>, path: string): (r: Option<Op>)
    ensures r.Some? ==> r.value in ops && Touches(r.value, path)
    ensures r.None? ==> forall op | op in ops :: !Touches(op, path)
    decreases |ops|
  {
    if ops == [] then None
    else if Touches(ops[|ops| - 1], path) then Some(ops[|ops| - 1])
    else LastOp(ops[..|ops| - 1], path)
  }

  /** Of several operations on a file, however they spell its path, the last one decides: a write
      leaves its content, a delete leaves nothing; a file no operation names stays as it was. */
  lemma {:induction false} LastOpDecides(files: Files, ops: seq<Op>, path: string)
    ensures Content(Apply(files, ops), path) ==
              match LastOp(ops, path)
              case None => Content(files, path)
              case Some(op) => if Writes(op) then Some(op.content) else None
    decreases |ops|
  {
    if ops != [] {
      var n := |ops| - 1;
      LastOpDecides(files, ops[..n], path);
      FoldStep(ApplyOp, files, ops, n);
      assert ops[..n + 1] == ops;
    }
  }

  /** Two sets of files that agree on every path are the same. */
  lemma SameFiles(a: Files, b: Files)
    requires forall path :: Content(a, path) == Content(b, path)
    ensures a == b
  {
    forall path
      ensures path in a <==> path in b
      ensures path in a ==> path in b && a[path] == b[path]
    {
      assert Content(a, path) == Content(b, path);
    }
  }

  // ---------- the repository ----------

  function Pages(files: Files): set<string> {
    set p | p in files && IsPage(p)
  }

  datatype ListError = UnsafePrefix | NotAFolder

  /** The path is a file's, as given: with a slash behind its name it would be no file's. */
  predicate NamesFile(files: Files, path: string) {
    var parts := Split(path, '/');
    Resolve(path) in files && IsComponent(parts[|parts| - 1])
  }

  /** A file is named by the path it has, and not by that path with a slash, or a slash and a dot, behind. */
  lemma FilesAreNamed(files: Files, path: string)
    requires Resolve(path) == path && path != ""
    ensures NamesFile(files, path) <==> path in files
    ensures !NamesFile(files, path + "/") && !NamesFile(files, path + "/.")
  {
    ResolvedParts(path);
    ComponentsShape(path);
    assert path + "/" == path + (['/'] + "") && path + "/." == path + (['/'] + ".");
    SplitConcat(path, '/', "");
    SplitConcat(path, '/', ".");
    SplitWhole("", '/');
    SplitWhole(".", '/');
  }

  /** The pages below a folder. */
  function Below(files: Files, prefix: string): set<string> {
    set p | p in Pages(files) && IsBelow(p, prefix)
  }

  /** The names the listing of a folder shows. */
  function Listing(files: Files, prefix: string): set<string> {
    set p | p in Below(files, prefix) :: Shown(prefix, p)
  }

  /** The listing of the root shows every page under its own name. */
  lemma ListingOfRoot(files: Files)
    ensures Listing(files, "") == Pages(files)
  {
    assert Split("", '/') == [""] && Filter(IsComponent, [""]) == [];
    forall p | p in Pages(files)
      ensures IsBelow(p, "") && Shown("", p) == p
    {
      ShownAsStoredExactly("", p);
    }
  }

  /** The listing of a folder shows exactly the pages whose components begin with those of the folder. */
  lemma ListingOfFolder(files: Files, prefix: string)
    requires OnDisk(files)
    ensures forall p | p in Pages(files) && Components(prefix) < Components(p) ::
              IsBelow(p, prefix) && Shown(prefix, p) in Listing(files, prefix)
    ensures forall name | name in Listing(files, prefix) ::
              exists p :: p in Pages(files) && Components(prefix) < Components(p) && Shown(prefix, p) == name
  {
    forall p | p in Pages(files)
      ensures IsBelow(p, prefix) <==> Components(prefix) < Components(p)
    {
      BelowByComponents(p, prefix);
    }
  }

  lemma NotYetShown(done: set<string>, prefix: string, path: string)
    requires path !in done && IsBelow(path, prefix) && forall p | p in done :: IsBelow(p, prefix)
    ensures forall p | p in done :: Shown(prefix, p) != Shown(prefix, path)
  {
    forall p | p in done
      ensures Shown(prefix, p) != Shown(prefix, path)
    {
      if Shown(prefix, p) == Shown(prefix, path) {
        ShownDiffer(prefix, p, path);
      }
    }
  }

  /** The names of the pages of a folder, all but those still to do. */
  ghost predicate ListsAllBut(pages: seq<string>, below: set<string>, prefix: string, todo: set<string>)
    requires forall p | p in below :: IsBelow(p, prefix)
  {
    Ascending(pages) && Elements(pages) == set p | p in below - todo :: Shown(prefix, p)
  }

  lemma ListsOneMore(pages: seq<string>, below: set<string>, prefix: string, todo: set<string>, p: string)
    requires (forall q | q in below :: IsBelow(q, prefix)) && todo <= below && p in todo
    requires ListsAllBut(pages, below, prefix, todo)
    ensures ListsAllBut(InsertAscending(pages, Shown(prefix, p)), below, prefix, todo - {p})
  {
    var shown := Shown(prefix, p);
    NotYetShown(below - todo, prefix, p);
    assert shown !in Elements(pages);
    InsertAscendingAdds(pages, shown);
    InsertStaysAscending(pages, shown);
    assert below - (todo - {p}) == below - todo + {p};
  }

  class WikiRepo {
    /** The working tree, which is what HEAD holds between commits. */
    var files: Files
    /** The tree of the commit before HEAD. */
    var parent: Files

    predicate Valid()
      reads this
    {
      OnDisk(files) && OnDisk(parent)
    }

    constructor (seed: Files)
      requires OnDisk(seed)
      ensures Valid() && files == seed && parent == map[]
    {
      files, parent := seed, map[];
    }

    /** Every page below a folder once, in ascending order of the names shown; the empty prefix is
        the root, and a folder that is not there holds none. */
    method ListPages(prefix: string) returns (r: Result<seq<string>, ListError>)
      ensures r.Ok? <==> prefix == "" || (IsSafe(prefix) && !NamesFile(files, prefix))
      ensures r.Err? ==> r.error == if IsSafe(prefix) then NotAFolder else UnsafePrefix
      ensures r.Ok? ==> Elements(r.value) == Listing(files, prefix) && Ascending(r.value) && NoRepeats(r.value)
    {
      if prefix != "" {
        if !IsSafe(prefix) {
          return Err(UnsafePrefix);
        }
        if NamesFile(files, prefix) {
          return Err(NotAFolder);
        }
      }
      var pages := [];
      var todo := Below(files, prefix);
      while todo != {}
        invariant todo <= Below(files, prefix) && ListsAllBut(pages, Below(files, prefix), prefix, todo)
      {
        var p :| p in todo;
        ListsOneMore(pages, Below(files, prefix), prefix, todo, p);
        pages := InsertAscending(pages, Shown(prefix, p));
        todo := todo - {p};
      }
      AscendingIsDistinct(pages);
      r := Ok(pages);
    }

    /** The markdown files HEAD's commit created, rewrote or removed. */
    method ChangedInHead() returns (changed: set<string>)
      ensures forall p :: p in changed <==> IsMarkdown(p) && Content(parent, p) != Content(files, p)
    {
      changed := {};
      var todo := parent.Keys + files.Keys;
      while todo != {}
        invariant todo <= parent.Keys + files.Keys
        invariant forall p :: p in changed <==>
                    p in parent.Keys + files.Keys - todo && IsMarkdown(p) && Content(parent, p) != Content(files, p)
      {
        var p :| p in todo;
        if IsMarkdown(p) && Content(parent, p) != Content(files, p) {
          changed := changed + {p};
        }
        todo := todo - {p};
      }
    }

    /** All checks come before any write: a refused bundle changes nothing, an accepted one
        becomes one commit. */
    method CommitBundle(ops: seq<Op>) returns (error: Option<CommitError>)
      modifies this
      ensures error == (
                if BundleError(ops).Some? then BundleError(ops)
                else if Apply(old(files), ops) == old(files) then Some(NothingToCommit) else None)
      ensures error.None? ==> files == Apply(old(files), ops) && parent == old(files)
      ensures error.Some? ==> files == old(files) && parent == old(parent)
      ensures old(Valid()) ==> Valid()
    {
      var totalBytes := 0;
      for i := 0 to |ops|
        invariant Refusal(ops) == Refusal(ops[i..])
        invariant totalBytes + TotalSize(ops[i..]) == TotalSize(ops)
      {
        if OpError(ops[i]).Some? {
          return OpError(ops[i]);
        }
        totalBytes := totalBytes + Size(ops[i]);
      }
      if totalBytes > BUNDLE_CAP {
        return Some(BundleTooLarge);
      }
      var tree := files;
      for i := 0 to |ops|
        invariant tree == Apply(files, ops[..i])
        invariant files == old(files) && parent == old(parent)
      {
        FoldStep(ApplyOp, files, ops, i);
        match ops[i] {
          case Create(path, content) => tree := tree[Resolve(path) := content];
          case Patch(path, content) => tree := tree[Resolve(path) := content];
          case Delete(path) => tree := tree - {Resolve(path)};
          case Link(_, _) =>
        }
      }
      assert ops[..|ops|] == ops;
      if tree == files {
        return Some(NothingToCommit);
      }
      if OnDisk(files) {
        ApplyStaysOnDisk(files, ops);
      }
      files, parent := tree, files;
      error := None;
    }
  }

  /** The markdown files on which two trees differ. */
  function Changed(before: Files, after: Files): set<string> {
    set p | p in before.Keys + after.Keys && IsMarkdown(p) && Content(before, p) != Content(after, p)
  }
}
