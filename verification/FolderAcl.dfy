/** Which access list governs a folder: that of the closest ancestor that has one. */
module FolderAcl {
  import opened Wrappers
  import opened Text
  import opened Slug

  type Acl = set<string>

  /** A folder and its ancestors, closest first, as segment lists. */
  function Chain(segments: seq<string>): seq<string> {
    if segments == [] then [Render([])]
    else [Render(segments)] + Chain(segments[..|segments| - 1])
  }

  /** The meaning: walk from the folder to the root and stop at the first stored list. */
  function Walk(acls: map<string, Acl>, segments: seq<string>): Option<Acl> {
    if Render(segments) in acls then Some(acls[Render(segments)])
    else if segments == [] then None
    else Walk(acls, segments[..|segments| - 1])
  }

  /** The last slash of a rendered path is where its last segment starts. */
  lemma RenderLast(segments: seq<string>)
    requires segments != []
    ensures var n := |segments| - 1;
            Render(segments) == (if n == 0 then "" else Render(segments[..n])) + "/" + segments[n]
  {
    var n := |segments| - 1;
    if n > 0 {
      JoinLast(segments[..n], segments[n], "/");
      assert segments == segments[..n] + [segments[n]];
      assert "/" + (Join(segments[..n], "/") + "/" + segments[n]) == Render(segments[..n]) + "/" + segments[n];
    } else {
      assert "" + "/" + segments[0] == "/" + segments[0];
    }
  }

  function LastSlash(s: string): (r: Option<nat>)
    ensures r.Some? ==> r.value < |s| && s[r.value] == '/' && '/' !in s[r.value + 1..]
    ensures r.None? ==> '/' !in s
  {
    if s == "" then None
    else
      var n := |s| - 1;
      assert s == s[..n] + [s[n]];
      if s[n] == '/' then Some(n) else
      var r := LastSlash(s[..n]);
      assert r.Some? ==> s[r.value + 1..] == s[..n][r.value + 1..] + [s[n]];
      r
  }

  lemma LastSlashIs(head: string, tail: string)
    requires '/' !in tail
    ensures LastSlash(head + "/" + tail) == Some(|head|)
  {
    var s := head + "/" + tail;
    assert s[|head|] == '/';
  }

  lemma LastSlashOfRender(segments: seq<string>)
    requires AllSlugs(segments) && segments != []
    ensures var n := |segments| - 1;
            && LastSlash(Render(segments)) == Some(if n == 0 then 0 else |Render(segments[..n])|)
            && (n > 0 ==> Render(segments)[..|Render(segments[..n])|] == Render(segments[..n]))
  {
    var n := |segments| - 1;
    RenderLast(segments);
    assert IsSlug(segments[n]);
    LastSlashIs(if n == 0 then "" else Render(segments[..n]), segments[n]);
  }

  /** Ancestors get strictly shorter. */
  lemma ParentIsShorter(segments: seq<string>)
    requires AllSlugs(segments) && segments != []
    ensures |Render(segments[..|segments| - 1])| < |Render(segments)|
  {
    RenderLast(segments);
    assert IsSlug(segments[|segments| - 1]);
  }

  lemma {:induction false} ChainFalls(segments: seq<string>)
    requires AllSlugs(segments)
    ensures forall p | p in Chain(segments) :: |p| <= |Render(segments)|
    ensures forall p | p in Chain(segments) && |p| == |Render(segments)| :: p == Render(segments)
    ensures forall i, j | 0 <= i < j < |Chain(segments)| :: |Chain(segments)[i]| > |Chain(segments)[j]|
    decreases |segments|
  {
    if segments != [] {
      var parent := segments[..|segments| - 1];
      ParentIsShorter(segments);
      ChainFalls(parent);
      forall p | p in Chain(parent)
        ensures |p| < |Render(segments)|
      {
      }
    }
  }

  /** What the query may answer: a stored path among the candidates that no other exceeds in
      length. */
  predicate LongestStored(acls: map<string, Acl>, candidates: seq<string>, p: string) {
    && p in candidates && p in acls
    && forall q | q in candidates && q in acls :: |q| <= |p|
  }

  /** Picking the longest stored candidate is stopping the walk at the closest one. */
  lemma {:induction false} LongestIsClosest(acls: map<string, Acl>, segments: seq<string>)
    requires AllSlugs(segments)
    ensures Walk(acls, segments).None? <==> forall q | q in Chain(segments) :: q !in acls
    ensures forall p | LongestStored(acls, Chain(segments), p) :: Walk(acls, segments) == Some(acls[p])
    decreases |segments|
  {
    ChainFalls(segments);
    if segments != [] {
      var parent := segments[..|segments| - 1];
      ParentIsShorter(segments);
      ChainFalls(parent);
      LongestIsClosest(acls, parent);
      assert Chain(segments)[0] == Render(segments);
      forall p | LongestStored(acls, Chain(segments), p)
        ensures Walk(acls, segments) == Some(acls[p])
      {
        if Render(segments) !in acls {
          assert p in Chain(parent);
          forall q | q in Chain(parent) && q in acls
            ensures |q| <= |p|
          {
            assert q in Chain(segments);
          }
          assert LongestStored(acls, Chain(parent), p);
        }
      }
    }
  }

  lemma LongestExists(acls: map<string, Acl>, candidates: seq<string>, q: string) returns (p: string)
    requires q in candidates && q in acls
    ensures LongestStored(acls, candidates, p)
  {
    p := q;
    var n := 0;
    while n < |candidates|
      invariant 0 <= n <= |candidates| && p in candidates && p in acls
      invariant forall k | 0 <= k < n && candidates[k] in acls :: |candidates[k]| <= |p|
    {
      if candidates[n] in acls && |candidates[n]| > |p| {
        p := candidates[n];
      }
      n := n + 1;
    }
  }

  /** `whole` is `got` followed by the chain of the first `k` segments without its head. */
  predicate Covers(got: seq<string>, segments: seq<string>, k: nat)
    requires k <= |segments|
  {
    got + Chain(segments[..k])[1..] == Chain(segments)
  }

  lemma ChainStep(got: seq<string>, segments: seq<string>, k: nat)
    requires 0 < k <= |segments| && Covers(got, segments, k)
    ensures Covers(got + [Render(segments[..k - 1])], segments, k - 1)
  {
    assert segments[..k][..k - 1] == segments[..k - 1];
    var rest := Chain(segments[..k - 1]);
    assert Chain(segments[..k])[1..] == rest;
    assert rest == [Render(segments[..k - 1])] + rest[1..];
    assert got + [Render(segments[..k - 1])] + rest[1..] == got + rest;
  }

  lemma ParentIsNew(got: seq<string>, segments: seq<string>, k: nat)
    requires AllSlugs(segments) && 0 < k <= |segments| && Covers(got, segments, k)
    ensures Render(segments[..k - 1]) !in got
  {
    ChainFalls(segments);
    ChainStep(got, segments, k);
    var chain, more := Chain(segments), got + [Render(segments[..k - 1])];
    forall i | 0 <= i < |got|
      ensures got[i] != more[|got|]
    {
      assert |more| <= |chain|;
      assert got[i] == more[i] == chain[i] && more[|got|] == chain[|got|];
    }
  }

  lemma ChainDone(got: seq<string>, segments: seq<string>)
    requires Covers(got, segments, 0)
    ensures got == Chain(segments)
  {
    assert segments[..0] == [];
    assert Chain([])[1..] == [];
  }

  lemma {:induction false} ChainEndsAtRoot(segments: seq<string>)
    ensures "/" in Chain(segments)
    decreases |segments|
  {
    if segments != [] {
      ChainEndsAtRoot(segments[..|segments| - 1]);
    } else {
      assert Render([]) == "/";
      assert Chain(segments)[0] == "/";
    }
  }

  /** One turn of the loop with the cursor on the first `k` segments. */
  lemma CursorStep(got: seq<string>, segments: seq<string>, k: nat)
    requires AllSlugs(segments) && 0 < k <= |segments| && Covers(got, segments, k)
    ensures var cur := Render(segments[..k]);
            var idx := LastSlash(cur);
            var parent := Render(segments[..k - 1]);
            && idx.Some? && (idx.value == 0 <==> k == 1)
            && (if k == 1 then parent == "/" else cur[..idx.value] == parent)
            && |parent| < |cur|
            && parent !in got && Covers(got + [parent], segments, k - 1)
  {
    LastSlashOfRender(segments[..k]);
    ParentIsShorter(segments[..k]);
    assert segments[..k][..k - 1] == segments[..k - 1];
    ParentIsNew(got, segments, k);
    ChainStep(got, segments, k);
    assert k == 1 ==> segments[..k - 1] == [];
  }

  /** The cursor loop produces exactly the chain of the normalised path. */
  method Candidates(folderPath: string) returns (candidates: seq<string>)
    ensures candidates == Chain(Segments(folderPath))
  {
    var normalized := SlugifyFolder(folderPath);
    candidates := [normalized];
    var cur := normalized;
    ghost var segments := Segments(folderPath);
    ghost var k: nat := |segments|;
    assert segments[..k] == segments;
    SegmentsAreSlugs(folderPath);
    ChainEndsAtRoot(segments);
    while LastSlash(cur).Some?
      invariant k <= |segments| && (k == 0 ==> segments == [])
      invariant cur == Render(segments[..k]) && Covers(candidates, segments, k)
      decreases |cur|
    {
      var idx := LastSlash(cur).value;
      if k > 0 {
        CursorStep(candidates, segments, k);
      }
      var parent := if idx == 0 then "/" else cur[..idx];
      if parent !in candidates {
        candidates := candidates + [parent];
      }
      if idx == 0 {
        k := 0;
        break;
      }
      cur := cur[..idx];
      k := k - 1;
    }
    ChainDone(candidates, segments);
    if "/" !in candidates {
      candidates := candidates + ["/"];
    }
  }

  /** Closest-ancestor lookup: the list that governs a folder is the one the walk from the folder
      to the root meets first. */
  method ResolveFolderAcl(acls: map<string, Acl>, folderPath: string) returns (r: Option<Acl>)
    ensures r == Walk(acls, Segments(folderPath))
  {
    var candidates := Candidates(folderPath);
    SegmentsAreSlugs(folderPath);
    LongestIsClosest(acls, Segments(folderPath));
    if p :| p in candidates && LongestStored(acls, candidates, p) {
      r := Some(acls[p]);
    } else {
      r := None;
      forall q | q in candidates
        ensures q !in acls
      {
        if q in acls {
          var p := LongestExists(acls, candidates, q);
          assert false;
        }
      }
    }
  }

  lemma RenderTells(segments: seq<string>, other: seq<string>)
    requires AllSlugs(segments) && AllSlugs(other)
    ensures Render(segments) == Render(other) <==> segments == other
  {
    SegmentsOfRender(segments);
    SegmentsOfRender(other);
  }

  lemma PrefixStep(segments: seq<string>, other: seq<string>)
    requires segments != []
    ensures other <= segments <==> other == segments || other <= segments[..|segments| - 1]
  {
  }

  /** Ancestry is by whole segments: a path is on a folder's chain exactly when its segments are a
      prefix of the folder's, so /foo is no ancestor of /foobar. */
  lemma {:induction false} AncestorsAreSegmentPrefixes(segments: seq<string>, other: seq<string>)
    requires AllSlugs(segments) && AllSlugs(other)
    ensures Render(other) in Chain(segments) <==> other <= segments
    decreases |segments|
  {
    RenderTells(other, segments);
    if segments != [] {
      PrefixStep(segments, other);
      AncestorsAreSegmentPrefixes(segments[..|segments| - 1], other);
    }
  }

  /** A folder is the given one or below it, and no folder from it up to that one, excluded, has a
      list of its own. */
  predicate Inherits(acls: map<string, Acl>, at: seq<string>, segments: seq<string>) {
    at <= segments && forall n | |at| < n <= |segments| :: Render(segments[..n]) !in acls
  }

  lemma NobodyInheritsFromBelow(acls: map<string, Acl>, at: seq<string>, segments: seq<string>)
    requires |segments| < |at| || Render(segments) in acls
    requires segments != at
    ensures !Inherits(acls, at, segments)
  {
    assert segments[..|segments|] == segments;
  }

  /** A folder without a list inherits what its parent inherits. */
  lemma ParentInherits(acls: map<string, Acl>, at: seq<string>, segments: seq<string>)
    requires segments != [] && segments != at && Render(segments) !in acls
    ensures Inherits(acls, at, segments) <==> Inherits(acls, at, segments[..|segments| - 1])
  {
    var parent := segments[..|segments| - 1];
    assert forall n | 0 <= n <= |parent| :: segments[..n] == parent[..n];
    assert segments[..|segments|] == segments;
    if at <= segments {
      assert at == segments[..|at|];
    }
  }

  lemma {:induction false} SettingReaches(acls: map<string, Acl>, at: seq<string>, acl: Acl, segments: seq<string>)
    requires AllSlugs(at) && AllSlugs(segments)
    ensures Walk(acls[Render(at) := acl], segments) ==
            if Inherits(acls, at, segments) then Some(acl) else Walk(acls, segments)
    decreases |segments|
  {
    RenderTells(segments, at);
    if segments != at {
      if Render(segments) in acls || segments == [] {
        NobodyInheritsFromBelow(acls, at, segments);
      } else {
        ParentInherits(acls, at, segments);
        SettingReaches(acls, at, acl, segments[..|segments| - 1]);
      }
    }
  }

  /** What a folder is left with once its own list is gone: its parent's answer. */
  function Above(acls: map<string, Acl>, at: seq<string>): Option<Acl> {
    if at == [] then None else Walk(acls, at[..|at| - 1])
  }

  lemma {:induction false} DeletingReaches(acls: map<string, Acl>, at: seq<string>, segments: seq<string>)
    requires AllSlugs(at) && AllSlugs(segments)
    ensures Walk(acls - {Render(at)}, segments) ==
            if Inherits(acls, at, segments) then Above(acls, at) else Walk(acls, segments)
    decreases |segments|
  {
    RenderTells(segments, at);
    if segments == at {
      if at != [] {
        DeletingReaches(acls, at, at[..|at| - 1]);
      }
    } else if Render(segments) in acls || segments == [] {
      NobodyInheritsFromBelow(acls, at, segments);
    } else {
      ParentInherits(acls, at, segments);
      DeletingReaches(acls, at, segments[..|segments| - 1]);
    }
  }

  /** A list stored under any spelling of a folder governs exactly the folder and those below it
      that have none closer, and deleting it, under any spelling, gives exactly these back to the
      folder's parent. Every other folder keeps its answer. */
  lemma StoredListGoverns(acls: map<string, Acl>, folder: string, acl: Acl, other: string)
    ensures var at, asked := Segments(folder), Segments(other);
            && Walk(acls[SlugifyFolder(folder) := acl], asked) ==
               (if Inherits(acls, at, asked) then Some(acl) else Walk(acls, asked))
            && Walk(acls - {SlugifyFolder(folder)}, asked) ==
               (if Inherits(acls, at, asked) then Above(acls, at) else Walk(acls, asked))
  {
    SegmentsAreSlugs(folder);
    SegmentsAreSlugs(other);
    SettingReaches(acls, Segments(folder), acl, Segments(other));
    DeletingReaches(acls, Segments(folder), Segments(other));
  }
}
