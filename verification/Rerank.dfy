/** Reordering the fused hits by the cross-encoder's scores. */
module Rerank {
  import opened Seqs
  import opened Wrappers

  /** Higher scores first; equal scores keep their fused order. */
  predicate Before(scores: seq<real>, a: nat, b: nat) {
    a < |scores| && b < |scores| && (scores[a] > scores[b] || (scores[a] == scores[b] && a < b))
  }

  predicate Ranked(scores: seq<real>, idx: seq<nat>) {
    && (forall i | 0 <= i < |idx| :: idx[i] < |scores|)
    && forall i, j | 0 <= i < j < |idx| :: Before(scores, idx[i], idx[j])
  }

  /** The first `n` positions, each once, ranked. */
  ghost predicate IsOrder(scores: seq<real>, idx: seq<nat>, n: nat) {
    Ranked(scores, idx) && forall i: nat :: i in idx <==> i < n
  }

  /** A position later than all of `idx`, put after those that score at least as high. */
  function Insert(scores: seq<real>, idx: seq<nat>, p: nat): seq<nat>
    requires p < |scores| && forall i | 0 <= i < |idx| :: idx[i] < |scores|
  {
    if idx == [] || scores[p] > scores[idx[0]] then [p] + idx
    else [idx[0]] + Insert(scores, idx[1..], p)
  }

  lemma {:induction false} InsertAdds(scores: seq<real>, idx: seq<nat>, p: nat)
    requires p < |scores| && forall i | 0 <= i < |idx| :: idx[i] < |scores|
    ensures forall i :: i in Insert(scores, idx, p) <==> i == p || i in idx
  {
    if idx != [] && scores[p] <= scores[idx[0]] {
      InsertAdds(scores, idx[1..], p);
      HeadTail(idx);
    }
  }

  lemma {:induction false} InsertRanks(scores: seq<real>, idx: seq<nat>, p: nat)
    requires Ranked(scores, idx) && p < |scores| && forall i | 0 <= i < |idx| :: idx[i] < p
    ensures Ranked(scores, Insert(scores, idx, p))
  {
    if idx != [] && scores[p] <= scores[idx[0]] {
      var rest := Insert(scores, idx[1..], p);
      InsertRanks(scores, idx[1..], p);
      InsertAdds(scores, idx[1..], p);
      forall j | 0 <= j < |rest|
        ensures Before(scores, idx[0], rest[j])
      {
        if rest[j] != p {
          assert rest[j] in idx[1..];
          var i :| 1 <= i < |idx| && idx[i] == rest[j];
        }
      }
    }
  }

  method SortPositions(scores: seq<real>) returns (idx: seq<nat>)
    ensures IsOrder(scores, idx, |scores|)
    ensures forall i, j | 0 <= i < j < |idx| ::
              scores[idx[i]] > scores[idx[j]] || (scores[idx[i]] == scores[idx[j]] && idx[i] < idx[j])
  {
    idx := [];
    for n := 0 to |scores|
      invariant IsOrder(scores, idx, n)
    {
      assert forall i | 0 <= i < |idx| :: idx[i] in idx;
      InsertAdds(scores, idx, n);
      InsertRanks(scores, idx, n);
      idx := Insert(scores, idx, n);
    }
  }

  /** The reranker's reply is its scores, or nothing when it failed. Without a score for every hit
      the fused order stays; with one, the best `k` come in the order of their scores. */
  method RerankHits<T>(hits: seq<T>, reply: Option<seq<real>>, k: nat) returns (r: seq<T>, ghost idx: seq<nat>)
    ensures |hits| <= 1 || reply.None? || |reply.value| != |hits| ==> r == Take(hits, k)
    ensures |hits| > 1 && reply.Some? && |reply.value| == |hits| ==>
              && IsOrder(reply.value, idx, |hits|)
              && |r| == |Take(idx, k)|
              && forall i | 0 <= i < |r| :: idx[i] < |hits| && r[i] == hits[idx[i]]
  {
    idx := [];
    if |hits| <= 1 || reply.None? || |reply.value| != |hits| {
      return Take(hits, k), idx;
    }
    var order := SortPositions(reply.value);
    idx := order;
    r := seq(|Take(order, k)|, i requires 0 <= i < |Take(order, k)| => hits[order[i]]);
  }

  /** No hit left out scores above a kept one, or as high and earlier in the fused order. */
  lemma NothingBetterIsCut(scores: seq<real>, idx: seq<nat>, k: nat, kept: nat, cut: nat)
    requires IsOrder(scores, idx, |scores|) && kept in Take(idx, k) && cut < |scores| && cut !in Take(idx, k)
    ensures kept < |scores| && (scores[kept] > scores[cut] || (scores[kept] == scores[cut] && kept < cut))
  {
    var i :| 0 <= i < |Take(idx, k)| && Take(idx, k)[i] == kept;
    assert cut in idx;
    var j :| 0 <= j < |idx| && idx[j] == cut;
    assert forall m | 0 <= m < |Take(idx, k)| :: Take(idx, k)[m] == idx[m] && idx[m] in Take(idx, k);
  }

  /** Every hit has one place: an order repeats no position, so it is as long as the hits. */
  lemma OrderIsComplete(scores: seq<real>, idx: seq<nat>, n: nat)
    requires IsOrder(scores, idx, n)
    ensures |idx| == n
  {
    assert NoRepeats(idx) by {
      forall i, j | 0 <= i < j < |idx|
        ensures idx[i] != idx[j]
      {
        assert Before(scores, idx[i], idx[j]);
      }
    }
    DistinctBelow(idx, n);
  }

  lemma WithoutOne(idx: seq<nat>, k: nat)
    requires NoRepeats(idx) && k < |idx|
    ensures var rest := idx[..k] + idx[k + 1..];
            NoRepeats(rest) && forall i: nat :: i in rest <==> i in idx && i != idx[k]
  {
    var rest := idx[..k] + idx[k + 1..];
    assert forall j | 0 <= j < |rest| :: rest[j] == if j < k then idx[j] else idx[j + 1];
    forall i: nat | i in idx && i != idx[k]
      ensures i in rest
    {
      var j :| 0 <= j < |idx| && idx[j] == i;
      assert rest[if j < k then j else j - 1] == i;
    }
  }

  lemma {:induction false} DistinctBelow(idx: seq<nat>, n: nat)
    requires NoRepeats(idx) && forall i: nat :: i in idx <==> i < n
    ensures |idx| == n
  {
    if n == 0 {
      assert forall i | 0 <= i < |idx| :: idx[i] in idx;
    } else {
      assert n - 1 in idx;
      var k :| 0 <= k < |idx| && idx[k] == n - 1;
      WithoutOne(idx, k);
      DistinctBelow(idx[..k] + idx[k + 1..], n - 1);
    }
  }
}
