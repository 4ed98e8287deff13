/** Reciprocal rank fusion of two ranked lists, the dense and the lexical retriever's. */
module Fusion {
  import opened Seqs
  import opened Wrappers
  import Reals

  function Clamp(x: real, lo: real, hi: real): real {
    if x < lo then lo else if x > hi then hi else x
  }

  /** The decay constant: the configured number clamped to [1, 1000], 60 when there is none. */
  function DecayFromEnv(configured: Option<real>): (k: real)
    ensures 1.0 <= k <= 1000.0
    ensures configured.None? ==> k == 60.0
    ensures configured.Some? && 1.0 <= configured.value <= 1000.0 ==> k == configured.value
    ensures configured.Some? ==> (configured.value < 1.0 ==> k == 1.0) && (configured.value > 1000.0 ==> k == 1000.0)
  {
    match configured case Some(k) => Clamp(k, 1.0, 1000.0) case None => 60.0
  }

  /** How many candidates each retriever contributes. */
  function Pool(limit: nat): (n: nat)
    ensures 50 <= n <= 200
    ensures 50 <= 4 * limit <= 200 ==> n == 4 * limit
    ensures n < 4 * limit ==> n == 200
    ensures n > 4 * limit ==> n == 50
  {
    if limit * 4 < 50 then 50 else if limit * 4 > 200 then 200 else limit * 4
  }

  /** One-based rank of a page in a list. */
  function Rank(list: seq<string>, p: string): (r: Option<nat>)
    ensures r.Some? <==> p in list
    ensures r.Some? ==> 1 <= r.value <= |list| && list[r.value - 1] == p
  {
    if list == [] then None
    else if list[0] == p then Some(1)
    else match Rank(list[1..], p) case Some(r) => Some(r + 1) case None => None
  }

  function Recip(k: real, rank: nat): real
    requires k >= 1.0
  {
    1.0 / (k + rank as real)
  }

  function Share(list: seq<string>, k: real, p: string): real
    requires k >= 1.0
  {
    match Rank(list, p) case Some(r) => Recip(k, r) case None => 0.0
  }

  function Score(vec: seq<string>, kw: seq<string>, k: real, p: string): real
    requires k >= 1.0
  {
    Share(vec, k, p) + Share(kw, k, p)
  }

  // ---------- what the scores mean ----------

  /** `p` is ranked at least as well as `q`; absence is the worst rank. */
  predicate NoWorse(list: seq<string>, p: string, q: string) {
    q in list ==> p in list && Rank(list, p).value <= Rank(list, q).value
  }

  predicate Better(list: seq<string>, p: string, q: string) {
    NoWorse(list, p, q) && !NoWorse(list, q, p)
  }

  lemma ShareFollowsRank(list: seq<string>, k: real, p: string, q: string)
    requires k >= 1.0
    ensures NoWorse(list, p, q) ==> Share(list, k, p) >= Share(list, k, q)
    ensures Better(list, p, q) ==> Share(list, k, p) > Share(list, k, q)
  {
    if p in list && q in list && Rank(list, p).value < Rank(list, q).value {
      Reals.ReciprocalFalls(k + Rank(list, p).value as real, k + Rank(list, q).value as real);
    }
  }

  /** Doing at least as well in both lists and better in one means a strictly higher score. */
  lemma FusionIsMonotone(vec: seq<string>, kw: seq<string>, k: real, p: string, q: string)
    requires k >= 1.0 && NoWorse(vec, p, q) && NoWorse(kw, p, q)
    requires Better(vec, p, q) || Better(kw, p, q)
    ensures Score(vec, kw, k, p) > Score(vec, kw, k, q)
  {
    ShareFollowsRank(vec, k, p, q);
    ShareFollowsRank(kw, k, p, q);
  }

  /** A page both retrievers rank above position k + 2 beats every page only one of them found,
      even that one's first. */
  lemma ConsensusWins(vec: seq<string>, kw: seq<string>, k: real, p: string, q: string)
    requires k >= 1.0 && p in vec && p in kw
    requires Rank(vec, p).value as real < k + 2.0 && Rank(kw, p).value as real < k + 2.0
    requires !(q in vec && q in kw)
    ensures Score(vec, kw, k, p) > Score(vec, kw, k, q)
  {
    HalfShare(vec, k, p);
    HalfShare(kw, k, p);
    TopShare(vec, k, q);
    TopShare(kw, k, q);
    TwoHalves(k + 1.0);
  }

  lemma TwoHalves(x: real)
    requires x > 0.0
    ensures 1.0 / (2.0 * x) + 1.0 / (2.0 * x) == 1.0 / x
  {
    var h := 1.0 / (2.0 * x);
    assert h * (2.0 * x) == 1.0;
    assert (h + h) * x == 1.0;
    assert 1.0 / x * x == 1.0;
    assert (h + h - 1.0 / x) * x == 0.0;
  }

  lemma HalfRecip(k: real, rank: nat)
    requires k >= 1.0 && rank as real < k + 2.0
    ensures Recip(k, rank) > 1.0 / (2.0 * (k + 1.0))
  {
    var mine, limit := k + rank as real, 2.0 * (k + 1.0);
    assert 0.0 < mine < limit;
    Reals.ReciprocalFalls(mine, limit);
  }

  lemma HalfShare(list: seq<string>, k: real, p: string)
    requires k >= 1.0 && p in list && Rank(list, p).value as real < k + 2.0
    ensures Share(list, k, p) > 1.0 / (2.0 * (k + 1.0))
  {
    HalfRecip(k, Rank(list, p).value);
  }

  lemma TopShare(list: seq<string>, k: real, q: string)
    requires k >= 1.0
    ensures 0.0 <= Share(list, k, q) <= 1.0 / (k + 1.0)
    ensures q !in list ==> Share(list, k, q) == 0.0
  {
    if q in list && Rank(list, q).value > 1 {
      Reals.ReciprocalFalls(k + 1.0, k + Rank(list, q).value as real);
    }
  }

  /** The bound is sharp: at rank k + 2 in both lists a page only ties with another's first place. */
  lemma ConsensusBoundIsSharp(vec: seq<string>, kw: seq<string>, k: real, n: nat, p: string, q: string)
    requires k >= 1.0 && n as real == k + 2.0
    requires Rank(vec, p) == Some(n) && Rank(kw, p) == Some(n)
    requires Rank(vec, q) == Some(1) && q !in kw
    ensures Score(vec, kw, k, p) == Score(vec, kw, k, q)
  {
    Tie(k, n);
  }

  lemma Tie(k: real, n: nat)
    requires k >= 1.0 && n as real == k + 2.0
    ensures Recip(k, n) + Recip(k, n) == Recip(k, 1)
  {
    TwoHalves(k + 1.0);
  }

  // ---------- what the query answers ----------

  /** `ORDER BY score DESC LIMIT n` over the fused pages, ties in any order. */
  ghost predicate Answers(hits: seq<string>, vec: seq<string>, kw: seq<string>, k: real, limit: nat)
    requires k >= 1.0
  {
    && NoRepeats(hits) && |hits| <= limit
    && (forall p | p in hits :: p in vec || p in kw)
    && (forall i, j | 0 <= i < j < |hits| :: Score(vec, kw, k, hits[i]) >= Score(vec, kw, k, hits[j]))
    && (forall p | (p in vec || p in kw) && p !in hits ::
          |hits| == limit && forall h | h in hits :: Score(vec, kw, k, h) >= Score(vec, kw, k, p))
  }

  /** With the default decay and at most 15 hits asked for, the pages both retrievers found come
      before all others, and none is left out in favour of another. */
  lemma ConsensusComesFirst(hits: seq<string>, vec: seq<string>, kw: seq<string>, k: real, limit: nat, p: string, j: nat)
    requires k >= 1.0 && Pool(limit) as real < k + 2.0
    requires |vec| <= Pool(limit) && |kw| <= Pool(limit)
    requires Answers(hits, vec, kw, k, limit)
    requires p in vec && p in kw
    requires j < |hits| && !(hits[j] in vec && hits[j] in kw)
    ensures exists i :: 0 <= i < j && hits[i] == p
  {
    ConsensusWins(vec, kw, k, p, hits[j]);
    assert hits[j] in hits && p in hits;
    var i :| 0 <= i < |hits| && hits[i] == p;
    assert i < j;
  }

  lemma DefaultsGiveConsensusFirst(limit: nat)
    requires limit <= 15
    ensures Pool(limit) as real < DecayFromEnv(None) + 2.0
  {
  }

  // ---------- an evaluation of the query ----------

  function Insert(vec: seq<string>, kw: seq<string>, k: real, sorted: seq<string>, p: string): seq<string>
    requires k >= 1.0
  {
    if sorted == [] || Score(vec, kw, k, p) >= Score(vec, kw, k, sorted[0]) then [p] + sorted
    else [sorted[0]] + Insert(vec, kw, k, sorted[1..], p)
  }

  predicate ByScore(vec: seq<string>, kw: seq<string>, k: real, hits: seq<string>)
    requires k >= 1.0
  {
    forall i, j | 0 <= i < j < |hits| :: Score(vec, kw, k, hits[i]) >= Score(vec, kw, k, hits[j])
  }

  lemma {:induction false} InsertAdds(vec: seq<string>, kw: seq<string>, k: real, sorted: seq<string>, p: string)
    requires k >= 1.0
    ensures forall q :: q in Insert(vec, kw, k, sorted, p) <==> q == p || q in sorted
  {
    if sorted != [] && Score(vec, kw, k, p) < Score(vec, kw, k, sorted[0]) {
      InsertAdds(vec, kw, k, sorted[1..], p);
      assert sorted == [sorted[0]] + sorted[1..];
    }
  }

  lemma {:induction false} InsertKeepsOrder(vec: seq<string>, kw: seq<string>, k: real, sorted: seq<string>, p: string)
    requires k >= 1.0 && ByScore(vec, kw, k, sorted) && NoRepeats(sorted) && p !in sorted
    ensures ByScore(vec, kw, k, Insert(vec, kw, k, sorted, p)) && NoRepeats(Insert(vec, kw, k, sorted, p))
  {
    if sorted != [] && Score(vec, kw, k, p) < Score(vec, kw, k, sorted[0]) {
      InsertKeepsOrder(vec, kw, k, sorted[1..], p);
      InsertAdds(vec, kw, k, sorted[1..], p);
      forall q | q in Insert(vec, kw, k, sorted[1..], p)
        ensures Score(vec, kw, k, sorted[0]) >= Score(vec, kw, k, q) && q != sorted[0]
      {
        if q != p {
          var i :| 1 <= i < |sorted| && sorted[i] == q;
        }
      }
    }
  }

  /** Fuse the two lists, rank the union by score and keep the first `limit`. */
  method HybridSearch(vec: seq<string>, kw: seq<string>, k: real, limit: nat) returns (hits: seq<string>)
    requires k >= 1.0
    ensures Answers(hits, vec, kw, k, limit)
  {
    var rows := vec + kw;
    var sorted: seq<string> := [];
    for i := 0 to |rows|
      invariant ByScore(vec, kw, k, sorted) && NoRepeats(sorted)
      invariant forall p :: p in sorted <==> p in rows[..i]
    {
      assert rows[..i + 1] == rows[..i] + [rows[i]];
      if rows[i] !in sorted {
        InsertKeepsOrder(vec, kw, k, sorted, rows[i]);
        InsertAdds(vec, kw, k, sorted, rows[i]);
        sorted := Insert(vec, kw, k, sorted, rows[i]);
      }
    }
    assert rows[..|rows|] == rows;
    hits := if |sorted| <= limit then sorted else sorted[..limit];
    CutAnswers(vec, kw, k, sorted, limit);
  }

  lemma CutAnswers(vec: seq<string>, kw: seq<string>, k: real, sorted: seq<string>, limit: nat)
    requires k >= 1.0 && ByScore(vec, kw, k, sorted) && NoRepeats(sorted)
    requires forall p :: p in sorted <==> p in vec || p in kw
    ensures Answers(if |sorted| <= limit then sorted else sorted[..limit], vec, kw, k, limit)
  {
    if |sorted| > limit {
      var hits := sorted[..limit];
      forall p | p in sorted && p !in hits
        ensures forall h | h in hits :: Score(vec, kw, k, h) >= Score(vec, kw, k, p)
      {
        var j :| 0 <= j < |sorted| && sorted[j] == p;
        assert j >= limit;
      }
    }
  }
}
