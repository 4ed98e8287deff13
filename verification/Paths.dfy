/** Paths of a wiki: which the checks let through, and which file of the tree each of them names. */
module Paths {
  import opened Seqs
  import opened Text

  /** The file every agent run reads its instructions from. */
  const GUIDE := "QPEDIA.md"

  predicate EndsWith(s: string, suffix: string) {
    |suffix| <= |s| && s[|s| - |suffix|..] == suffix
  }

  lemma SuffixChars(s: string, suffix: string)
    ensures EndsWith(s, suffix) ==> forall c | c in suffix :: c in s
  {
    assert |suffix| <= |s| ==> forall c | c in s[|s| - |suffix|..] :: c in s;
  }

  predicate IsMarkdown(path: string) {
    EndsWith(path, ".md")
  }

  /** What the listing of a tree shows: files with the extension `md`, which a file called just
      `.md` does not have. */
  predicate IsPage(path: string) {
    IsMarkdown(path) && path != ".md" && !EndsWith(path, "/.md")
  }

  /** The last component of the path, its name. */
  function NameOf(path: string): string {
    var parts := Split(path, '/');
    parts[|parts| - 1]
  }

  /** A markdown file is shown exactly if there is something in its name before the extension. */
  lemma PageByName(path: string)
    requires IsMarkdown(path)
    ensures IsPage(path) <==> NameOf(path) != ".md"
  {
    if path == ".md" {
      SplitWhole(".md", '/');
    } else if EndsWith(path, "/.md") {
      var top := path[..|path| - 4];
      assert path == top + (['/'] + ".md");
      SplitConcat(top, '/', ".md");
      SplitWhole(".md", '/');
    } else if NameOf(path) == ".md" {
      EndsInName(path);
    }
  }

  lemma EndsInName(path: string)
    ensures path == NameOf(path) || EndsWith(path, "/" + NameOf(path))
  {
    var parts := Split(path, '/');
    JoinSplit(path, '/');
    if |parts| > 1 {
      var n := |parts| - 1;
      JoinLast(parts[..n], parts[n], "/");
      assert parts == parts[..n] + [parts[n]];
      assert path == Join(parts[..n], "/") + ("/" + parts[n]);
    }
  }

  /** Files the bot maintains without frontmatter. */
  predicate IsSystem(path: string) {
    path == "index.md" || path == "log.md" || path == GUIDE || StartsWith(path, "_meta/")
  }

  /** A component that is neither first nor last. */
  predicate HasInner(parts: seq<string>, c: string) {
    exists i :: 0 < i < |parts| - 1 && parts[i] == c
  }

  /** Not empty, not under `.git` at the head or, as `/.git/`, further in, and without parent
      components. */
  predicate IsSafe(path: string) {
    var rel, parts := TrimStartMatches(path, '/'), Split(path, '/');
    rel != "" && !StartsWith(rel, ".git") && !HasInner(parts, ".git") && ".." !in parts
  }

  lemma InnerOccurs(path: string, name: string)
    requires HasInner(Split(path, '/'), name)
    ensures FindSub(path, "/" + name + "/").Some?
  {
    var parts := Split(path, '/');
    var i :| 0 < i < |parts| - 1 && parts[i] == name;
    var a, b := parts[..i], parts[i + 1..];
    assert parts == a + ([name] + b);
    JoinSplit(path, '/');
    JoinConcat(a, [name] + b, "/");
    JoinConcat([name], b, "/");
    BetweenSlashes(Join(a, "/"), name, Join(b, "/"));
  }

  lemma BetweenSlashes(left: string, name: string, right: string)
    ensures FindSub(left + "/" + (name + "/" + right), "/" + name + "/").Some?
  {
    assert left + "/" + (name + "/" + right) == left + ("/" + name + "/") + right;
    FindsItself(left, "/" + name + "/", right);
  }

  lemma OccurrenceIsInner(path: string, name: string)
    requires '/' !in name && FindSub(path, "/" + name + "/").Some?
    ensures HasInner(Split(path, '/'), name)
  {
    var k := FindSub(path, "/" + name + "/").value;
    var a, b := path[..k], path[k + |name| + 2..];
    assert path == a + (['/'] + (name + (['/'] + b)));
    SplitConcat(a, '/', name + (['/'] + b));
    SplitFirst(name, '/', b);
    var parts := Split(path, '/');
    assert parts[|Split(a, '/')|] == name;
  }

  /** The check as it is written: past the slashes in front the path is not empty, does not begin with
      `.git`, has no `/.git/` in it, and no component goes up. */
  lemma SafeAsChecked(path: string)
    ensures IsSafe(path) <==>
              var rel := TrimStartMatches(path, '/');
              rel != "" && !StartsWith(rel, ".git") && FindSub(path, "/.git/").None? && ".." !in Split(path, '/')
  {
    assert "/" + ".git" + "/" == "/.git/";
    if HasInner(Split(path, '/'), ".git") {
      InnerOccurs(path, ".git");
    } else if FindSub(path, "/.git/").Some? {
      OccurrenceIsInner(path, ".git");
    }
  }

  // ---------- resolution ----------

  predicate IsComponent(c: string) {
    c != "" && c != "."
  }

  function Components(path: string): seq<string> {
    Filter(IsComponent, Split(path, '/'))
  }

  /** The file a path names, below the root: empty and `.` components do not count. */
  function Resolve(path: string): string {
    Join(Components(path), "/")
  }

  /** A path that is not the listed name of the file it names. */
  predicate IsOdd(path: string) {
    Resolve(path) != path || !IsPage(path)
  }

  lemma ComponentsShape(path: string)
    ensures forall c | c in Components(path) :: IsComponent(c) && '/' !in c && c in Split(path, '/')
  {
    FilterMembers(IsComponent, Split(path, '/'));
    SplitPieces(path, '/');
  }

  /** Splitting what components name gives them back. */
  lemma ResolvedParts(path: string)
    ensures Components(path) != [] ==> Split(Resolve(path), '/') == Components(path)
    ensures Components(path) == [] ==> Resolve(path) == ""
  {
    ComponentsShape(path);
    if Components(path) != [] {
      SplitJoin(Components(path), '/');
    }
  }

  /** A resolved path names itself. */
  lemma ResolveTwice(path: string)
    ensures Resolve(Resolve(path)) == Resolve(path)
  {
    ResolvedParts(path);
    ComponentsShape(path);
    if Components(path) == [] {
      assert Split("", '/') == [""];
      assert Filter(IsComponent, [""]) == [];
    } else {
      FilterAll(IsComponent, Components(path));
    }
  }

  /** So does a plain name. */
  lemma PlainNameResolves(name: string)
    requires IsComponent(name) && '/' !in name
    ensures Resolve(name) == name
  {
    SplitWhole(name, '/');
    FilterAll(IsComponent, [name]);
  }

  /** And two of them, one under the other. */
  lemma TwoNamesResolve(top: string, name: string)
    requires IsComponent(top) && '/' !in top && IsComponent(name) && '/' !in name
    ensures Resolve(top + (['/'] + name)) == top + "/" + name
  {
    SplitFirst(top, '/', name);
    SplitWhole(name, '/');
    var both := [top] + [name];
    FilterAll(IsComponent, both);
    assert Components(top + (['/'] + name)) == both;
    assert both[1..] == [name] && both[0] == top;
    assert Join(both, "/") == top + "/" + Join(both[1..], "/");
  }

  lemma TwoNamesAreSafe(top: string, name: string)
    requires IsComponent(top) && '/' !in top && IsComponent(name) && '/' !in name
    requires top[0] != '.' && name[0] != '.'
    ensures IsSafe(top + (['/'] + name))
  {
    var path := top + (['/'] + name);
    SplitFirst(top, '/', name);
    SplitWhole(name, '/');
    assert path[0] == top[0];
  }

  /** A plain file name is a safe path. */
  lemma PlainNameIsSafe(name: string)
    requires IsComponent(name) && '/' !in name && name != ".." && !StartsWith(name, ".git")
    ensures IsSafe(name) && Resolve(name) == name
  {
    PlainNameResolves(name);
    SplitWhole(name, '/');
  }

  /** A `./` in front changes nothing. */
  lemma DotSlash(path: string)
    ensures Resolve("./" + path) == Resolve(path)
    ensures Split("./" + path, '/') == ["."] + Split(path, '/')
  {
    assert "./" + path == "." + (['/'] + path);
    SplitFirst(".", '/', path);
    TailAppend(["."], Split(path, '/'));
    AppendEmpty(Components(path));
  }

  // ---------- the names a listing shows ----------

  /** The components of a folder as it was given, but for those in front that do not count and for
      one slash at the end. */
  function GivenParts(prefix: string): seq<string> {
    var parts := Split(prefix, '/');
    Counting(if parts[|parts| - 1] == "" then parts[..|parts| - 1] else parts)
  }

  /** From the first component that counts on. */
  function Counting(parts: seq<string>): seq<string> {
    if parts == [] || IsComponent(parts[0]) then parts else Counting(parts[1..])
  }

  predicate IsBelow(path: string, prefix: string) {
    Resolve(prefix) == "" || StartsWith(path, Resolve(prefix) + "/")
  }

  /** A file is below a folder exactly if the folder's components are the first of its own, and not all. */
  lemma BelowByComponents(path: string, prefix: string)
    requires Resolve(path) == path && path != ""
    ensures IsBelow(path, prefix) <==> Components(prefix) < Components(path)
  {
    var a, b, top := Components(prefix), Components(path), Resolve(prefix);
    ResolvedParts(path);
    ResolvedParts(prefix);
    ComponentsShape(prefix);
    SplitWhole("", '/');
    if a != [] && IsBelow(path, prefix) {
      var rest := path[|top| + 1..];
      assert path == top + (['/'] + rest);
      SplitConcat(top, '/', rest);
    }
    if a != [] && a < b {
      var rest := b[|a|..];
      assert b == a + rest;
      JoinConcat(a, rest, "/");
      assert path == top + "/" + Join(rest, "/");
    }
  }

  /** The name under which the listing of a folder shows a path: below the folder as it was given. */
  function Shown(prefix: string, path: string): string
    requires IsBelow(path, prefix)
  {
    Join(GivenParts(prefix), "/") + path[|Resolve(prefix)|..]
  }

  lemma {:induction false} CountingKeeps(parts: seq<string>)
    ensures Filter(IsComponent, Counting(parts)) == Filter(IsComponent, parts)
    ensures Counting(parts) == [] <==> Filter(IsComponent, parts) == []
    ensures forall c | c in Counting(parts) :: c in parts
  {
    if parts != [] && !IsComponent(parts[0]) {
      CountingKeeps(parts[1..]);
    }
  }

  lemma GivenPartsKeep(prefix: string)
    ensures Filter(IsComponent, GivenParts(prefix)) == Components(prefix)
    ensures GivenParts(prefix) == [] <==> Components(prefix) == []
    ensures forall c | c in GivenParts(prefix) :: '/' !in c
  {
    var parts := Split(prefix, '/');
    var n := |parts| - 1;
    CountingKeeps(if parts[n] == "" then parts[..n] else parts);
    SplitPieces(prefix, '/');
    FilterAppend(IsComponent, parts[..n], parts[n]);
    assert parts == parts[..n] + [parts[n]];
    AppendEmpty(Filter(IsComponent, parts[..n]));
  }

  lemma ComponentsConcat(a: string, b: string)
    ensures Components(a + (['/'] + b)) == Components(a) + Components(b)
  {
    SplitConcat(a, '/', b);
    FilterConcat(IsComponent, Split(a, '/'), Split(b, '/'));
  }

  lemma ResolvedComponents(path: string)
    ensures Components(Resolve(path)) == Components(path)
    ensures Resolve(path) == "" <==> Components(path) == []
  {
    ResolvedParts(path);
    ComponentsShape(path);
    if Components(path) == [] {
      assert Split("", '/') == [""] && Filter(IsComponent, [""]) == [];
    } else {
      FilterAll(IsComponent, Components(path));
      assert Components(path)[0] in Components(path);
      HeadOfJoin(Components(path));
    }
  }

  lemma GivenComponents(prefix: string)
    ensures Components(Join(GivenParts(prefix), "/")) == Components(prefix)
  {
    GivenPartsKeep(prefix);
    if GivenParts(prefix) == [] {
      assert Split("", '/') == [""] && Filter(IsComponent, [""]) == [];
    } else {
      SplitJoin(GivenParts(prefix), '/');
    }
  }

  /** A shown name names the path it is shown for. */
  lemma ShownResolves(prefix: string, path: string)
    requires IsBelow(path, prefix)
    ensures Resolve(Shown(prefix, path)) == Resolve(path)
  {
    var given, stored := Join(GivenParts(prefix), "/"), Resolve(prefix);
    GivenPartsKeep(prefix);
    GivenComponents(prefix);
    ResolvedComponents(prefix);
    if stored == "" {
      assert given + path == path;
    } else {
      var tail := SlashAfter(path, stored);
      ComponentsConcat(given, tail);
      ComponentsConcat(stored, tail);
    }
  }

  lemma SlashAfter(path: string, top: string) returns (tail: string)
    requires StartsWith(path, top + "/")
    ensures path[|top|..] == ['/'] + tail && path == top + (['/'] + tail)
  {
    tail := path[|top| + 1..];
    SplitAt(path, |top| + 1);
    AppendAssociates(top, "/", tail);
    DropPast(top, ['/'] + tail, 0);
  }

  /** And it is the path itself if and only if every component of the folder counts, leading ones and a
      slash at the end aside. */
  lemma ShownAsStoredExactly(prefix: string, path: string)
    requires IsBelow(path, prefix)
    ensures Shown(prefix, path) == path <==> forall c | c in GivenParts(prefix) :: IsComponent(c)
  {
    var given, stored := Join(GivenParts(prefix), "/"), Resolve(prefix);
    GivenPartsKeep(prefix);
    ComponentsShape(prefix);
    ResolvedComponents(prefix);
    if forall c | c in GivenParts(prefix) :: IsComponent(c) {
      FilterAll(IsComponent, GivenParts(prefix));
    } else if Shown(prefix, path) == path {
      SplitAt(path, |stored|);
      SameHead(given, stored, path[|stored|..]);
      SplitJoin(GivenParts(prefix), '/');
      ResolvedParts(prefix);
    }
  }

  lemma SameHead(a: string, b: string, tail: string)
    requires a + tail == b + tail
    ensures a == b
  {
    assert |a + tail| == |b + tail|;
    assert (a + tail)[..|a|] == a && (b + tail)[..|b|] == b;
  }

  /** Different paths are shown under different names. */
  lemma ShownDiffer(prefix: string, a: string, b: string)
    requires IsBelow(a, prefix) && IsBelow(b, prefix) && Shown(prefix, a) == Shown(prefix, b)
    ensures a == b
  {
    var given, n := Join(GivenParts(prefix), "/"), |Resolve(prefix)|;
    assert Shown(prefix, a)[|given|..] == a[n..] && Shown(prefix, b)[|given|..] == b[n..];
    if n > 0 {
      assert a[..n + 1][..n] == a[..n] && b[..n + 1][..n] == b[..n];
    }
    SplitAt(a, n);
    SplitAt(b, n);
  }

  // ---------- what resolution keeps ----------

  lemma {:induction false} InnerOfFilter(p: string -> bool, parts: seq<string>, i: nat)
    requires i < |Filter(p, parts)|
    ensures exists j :: i <= j <= |parts| - (|Filter(p, parts)| - i) && parts[j] == Filter(p, parts)[i]
  {
    var k := if p(parts[0]) then 1 else 0;
    var rest := Filter(p, parts[1..]);
    assert Filter(p, parts) == (if p(parts[0]) then [parts[0]] else []) + rest;
    if k == 1 && i == 0 {
      FilterShrinks(p, parts);
      assert parts[0] == Filter(p, parts)[0];
    } else {
      InnerOfFilter(p, parts[1..], i - k);
      var j :| i - k <= j <= |parts[1..]| - (|rest| - (i - k)) && parts[1..][j] == rest[i - k];
      assert parts[j + 1] == parts[1..][j];
    }
  }

  /** A safe path names a safe file, unless that file's own path begins with `.git`: the check
      looks at the path as given. */
  lemma SafeUnlessHidden(path: string)
    requires IsSafe(path) && Resolve(path) != ""
    ensures IsSafe(Resolve(path)) <==> !StartsWith(Resolve(path), ".git")
  {
    var parts, r := Components(path), Resolve(path);
    ResolvedParts(path);
    ComponentsShape(path);
    assert parts[0] in parts;
    HeadOfJoin(parts);
    assert r[0] in parts[0];
    assert TrimStartMatches(r, '/') == r;
    if HasInner(parts, ".git") {
      var i :| 0 < i < |parts| - 1 && parts[i] == ".git";
      InnerOfFilter(IsComponent, Split(path, '/'), i);
    }
  }

  lemma SystemIsSafe(path: string)
    requires IsSafe(path) && IsSystem(Resolve(path))
    ensures IsSafe(Resolve(path))
  {
    var r := Resolve(path);
    assert r[0] == 'i' || r[0] == 'l' || r[0] == 'Q' || r[0] == '_';
    assert StartsWith(r, ".git") ==> r[..4][0] == r[0];
    SafeUnlessHidden(path);
  }

  lemma HeadOfJoin(parts: seq<string>)
    requires parts != [] && parts[0] != ""
    ensures Join(parts, "/") != "" && Join(parts, "/")[0] == parts[0][0]
  {
  }

  lemma {:induction false} LastPieceEnds(s: string, c: char, suffix: string)
    requires EndsWith(s, suffix) && c !in suffix && suffix != ""
    ensures var parts := Split(s, c); EndsWith(parts[|parts| - 1], suffix)
  {
    if |s| == |suffix| {
      assert s == suffix;
      SplitWhole(s, c);
    } else {
      assert s[1..][|s| - 1 - |suffix|..] == s[|s| - |suffix|..];
      LastPieceEnds(s[1..], c, suffix);
      OnePieceMore(s, c, suffix);
    }
  }

  lemma OnePieceMore(s: string, c: char, suffix: string)
    requires s != ""
    requires var parts := Split(s[1..], c); EndsWith(parts[|parts| - 1], suffix)
    ensures var parts := Split(s, c); EndsWith(parts[|parts| - 1], suffix)
  {
    var rest, parts := Split(s[1..], c), Split(s, c);
    var last := rest[|rest| - 1];
    if s[0] == c || |rest| > 1 {
      assert parts[|parts| - 1] == last;
    } else {
      assert parts == [[s[0]] + last];
      assert ([s[0]] + last)[|last| + 1 - |suffix|..] == last[|last| - |suffix|..];
    }
  }

  /** The last component of a markdown path is its name. */
  lemma MarkdownName(path: string)
    requires IsMarkdown(path)
    ensures var parts := Split(path, '/'); IsComponent(parts[|parts| - 1])
    ensures Components(path) != []
  {
    var parts := Split(path, '/');
    LastPieceEnds(path, '/', ".md");
    FilterMembers(IsComponent, parts);
    assert parts[|parts| - 1] in parts;
  }

  /** The bot's own files are still the bot's own once resolved. */
  lemma SystemStaysSystem(path: string)
    requires IsMarkdown(path) && IsSystem(path)
    ensures IsSystem(Resolve(path))
  {
    if StartsWith(path, "_meta/") {
      MetaMarkdown(path);
      assert path == META + (['/'] + path[6..]);
      ResolvesUnder(META, path[6..]);
      assert META + "/" == "_meta/";
    } else {
      PlainNameResolves(path);
    }
  }

  const META := "_meta"

  lemma ResolvesUnder(top: string, rest: string)
    requires IsComponent(top) && '/' !in top && IsMarkdown(rest)
    ensures StartsWith(Resolve(top + (['/'] + rest)), top + "/")
  {
    SplitFirst(top, '/', rest);
    TailAppend([top], Split(rest, '/'));
    AppendEmpty(Split(rest, '/'));
    assert Components(top + (['/'] + rest)) == [top] + Components(rest);
    MarkdownName(rest);
    JoinUnder(top, Components(rest));
  }

  lemma MetaMarkdown(path: string)
    requires IsMarkdown(path) && StartsWith(path, "_meta/")
    ensures IsMarkdown(path[6..])
  {
    assert path[..6][5] == '/' && path[|path| - 3..][0] == '.' && path[|path| - 3..][1] == 'm';
    assert path[6..][|path| - 9..] == path[|path| - 3..];
  }

  lemma JoinUnder(top: string, parts: seq<string>)
    requires parts != []
    ensures StartsWith(Join([top] + parts, "/"), top + "/")
  {
    assert ([top] + parts)[1..] == parts;
  }
}
