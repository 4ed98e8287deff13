/** Scoring a ranking against graded relevance judgements. Scores are exact reals, and the
    logarithm is any function that is positive and strictly increasing from two on. */
module Ndcg {
  import opened Seqs
  import opened Wrappers
  import Reals

  const K: nat := 10

  /** One judged page. A query judges each page at most once. */
  datatype Qrel = Qrel(path: string, grade: nat)

  predicate Judged(qrels: seq<Qrel>) {
    forall i, j | 0 <= i < j < |qrels| :: qrels[i].path != qrels[j].path
  }

  function Lookup(qrels: seq<Qrel>, path: string): Option<nat> {
    if qrels == [] then None
    else if qrels[0].path == path then Some(qrels[0].grade)
    else Lookup(qrels[1..], path)
  }

  function Grades(qrels: seq<Qrel>): seq<nat> {
    if qrels == [] then [] else [qrels[0].grade] + Grades(qrels[1..])
  }

  // ---------- weights ----------

  /** The discount of each (zero-based) position. */
  type Weights = nat -> real

  /** Positive and strictly falling. */
  ghost predicate Falling(w: Weights) {
    (forall i :: w(i) > 0.0) && forall i, j | i < j :: w(j) < w(i)
  }

  /** The logarithm, at the whole numbers the scorer applies it to. */
  type Log = nat -> real

  ghost predicate LogLike(log: Log) {
    (forall n: nat | n >= 2 :: log(n) > 0.0) && forall m: nat, n: nat | 2 <= m < n :: log(m) < log(n)
  }

  /** The discounts in use: one over the logarithm of the one-based position plus one, which any
      logarithm makes positive. */
  function LogWeights(log: Log): Weights {
    (i: nat) => if log(i + 2) > 0.0 then 1.0 / log(i + 2) else 0.0
  }

  /** Any logarithm makes them fall. */
  lemma LogWeightsFall(log: Log)
    requires LogLike(log)
    ensures Falling(LogWeights(log))
  {
    forall i: nat, j: nat | i < j
      ensures LogWeights(log)(j) < LogWeights(log)(i)
    {
      Reals.ReciprocalFalls(log(i + 2), log(j + 2));
    }
    forall i: nat
      ensures LogWeights(log)(i) > 0.0
    {
      Reals.ReciprocalFalls(log(i + 2), log(i + 3));
    }
  }

  // ---------- gains ----------

  /** A list read past its end is zero. */
  function At(g: seq<nat>, i: nat): nat {
    if i < |g| then g[i] else 0
  }

  function Prefix(g: seq<nat>, n: nat): nat {
    if n == 0 then 0 else Prefix(g, n - 1) + At(g, n - 1)
  }

  /** Discounted sum of the first `n` gains. */
  function Discounted(w: Weights, g: seq<nat>, n: nat): real {
    if n == 0 then 0.0 else Discounted(w, g, n - 1) + At(g, n - 1) as real * w(n - 1)
  }

  /** The grade of each ranked page, zero for a page not judged. */
  function Gains(qrels: seq<Qrel>, ranked: seq<string>): seq<nat> {
    seq(|ranked|, i requires 0 <= i < |ranked| =>
      match Lookup(qrels, ranked[i]) case Some(g) => g case None => 0)
  }

  predicate Descending(qrels: seq<Qrel>) {
    forall i, j | 0 <= i < j < |qrels| :: qrels[i].grade >= qrels[j].grade
  }

  function Insert(qrels: seq<Qrel>, x: Qrel): seq<Qrel> {
    if qrels == [] || x.grade >= qrels[0].grade then [x] + qrels
    else [qrels[0]] + Insert(qrels[1..], x)
  }

  /** The judgements by descending grade. */
  function Sorted(qrels: seq<Qrel>): seq<Qrel> {
    if qrels == [] then [] else Insert(Sorted(qrels[1..]), qrels[0])
  }

  /** The grades of the judgements, best first. */
  function Ideal(qrels: seq<Qrel>): seq<nat> {
    Grades(Sorted(qrels))
  }

  function Dcg(w: Weights, qrels: seq<Qrel>, ranked: seq<string>): real {
    Discounted(w, Gains(qrels, ranked), K)
  }

  function Idcg(w: Weights, qrels: seq<Qrel>): real {
    Discounted(w, Ideal(qrels), K)
  }

  function Score(w: Weights, qrels: seq<Qrel>, ranked: seq<string>): real {
    if Idcg(w, qrels) > 0.0 then Dcg(w, qrels, ranked) / Idcg(w, qrels) else 0.0
  }

  // ---------- rearrangement ----------

  lemma PartsStep(d: real, gap: real, step: real, v: real, w: real, after: real, lag: real)
    requires 0.0 < w < v && gap >= 0.0 && lag >= 0.0 && d >= v * gap
    requires after == d + w * step && lag == gap + step
    ensures after >= w * lag && after >= 0.0
    ensures after == 0.0 ==> d == 0.0 && lag == 0.0
  {
    assert after >= (v - w) * gap + w * lag;
    assert (v - w) * gap >= 0.0 && w * lag >= 0.0;
    if after == 0.0 {
      assert (v - w) * gap == 0.0 && w * lag == 0.0;
    }
  }

  function Lag(a: seq<nat>, b: seq<nat>, n: nat): real {
    Prefix(b, n) as real - Prefix(a, n) as real
  }

  function Shortfall(w: Weights, a: seq<nat>, b: seq<nat>, n: nat): real {
    Discounted(w, b, n) - Discounted(w, a, n)
  }

  lemma Distribute(x: real, y: real, w: real)
    ensures y * w - x * w == w * (y - x)
  {
  }

  lemma Unfold(w: Weights, a: seq<nat>, b: seq<nat>, n: nat)
    requires n > 0
    ensures var step := At(b, n - 1) as real - At(a, n - 1) as real;
            && Shortfall(w, a, b, n) == Shortfall(w, a, b, n - 1) + w(n - 1) * step
            && Lag(a, b, n) == Lag(a, b, n - 1) + step
  {
    Distribute(At(a, n - 1) as real, At(b, n - 1) as real, w(n - 1));
  }

  lemma DecideStep(w: Weights, a: seq<nat>, b: seq<nat>, n: nat)
    requires n > 0 && 0.0 < w(n - 1) < Before(w, n - 1) && Lag(a, b, n - 1) >= 0.0 && Lag(a, b, n) >= 0.0
    requires Shortfall(w, a, b, n - 1) >= Before(w, n - 1) * Lag(a, b, n - 1)
    ensures Shortfall(w, a, b, n) >= w(n - 1) * Lag(a, b, n) && Shortfall(w, a, b, n) >= 0.0
    ensures Shortfall(w, a, b, n) == 0.0 ==> Shortfall(w, a, b, n - 1) == 0.0 && Lag(a, b, n) == 0.0
  {
    var step := At(b, n - 1) as real - At(a, n - 1) as real;
    Unfold(w, a, b, n);
    PartsStep(Shortfall(w, a, b, n - 1), Lag(a, b, n - 1), step, Before(w, n - 1), w(n - 1),
              Shortfall(w, a, b, n), Lag(a, b, n));
  }

  /** Summation by parts: if every prefix of `a` sums to at most that of `b`, decreasing weights
      keep the order; and weighted sums that agree force every prefix to agree. */
  lemma {:induction false} PrefixesDecide(w: Weights, a: seq<nat>, b: seq<nat>, n: nat)
    requires Falling(w) && forall m | 0 <= m <= n :: Prefix(a, m) <= Prefix(b, m)
    ensures n > 0 ==> Shortfall(w, a, b, n) >= w(n - 1) * Lag(a, b, n)
    ensures Shortfall(w, a, b, n) >= 0.0
    ensures Shortfall(w, a, b, n) == 0.0 ==> forall m | 0 <= m <= n :: Prefix(a, m) == Prefix(b, m)
  {
    if n > 0 {
      PrefixesDecide(w, a, b, n - 1);
      DecideStep(w, a, b, n);
    }
  }

  /** The weight before position `n`; anything larger stands before the first. */
  function Before(w: Weights, n: nat): real {
    if n > 0 then w(n - 1) else w(0) + 1.0
  }

  lemma {:induction false} PrefixShift(g: seq<nat>, n: nat)
    requires g != []
    ensures Prefix(g, n + 1) == g[0] + Prefix(g[1..], n)
  {
    if n > 0 {
      PrefixShift(g, n - 1);
    }
  }

  lemma {:induction false} PrefixGrows(g: seq<nat>, m: nat, n: nat)
    requires m <= n
    ensures Prefix(g, m) <= Prefix(g, n)
    decreases n
  {
    if m < n {
      PrefixGrows(g, m, n - 1);
    }
  }

  lemma {:induction false} PrefixDominates(a: seq<nat>, b: seq<nat>, n: nat)
    requires forall i: nat | i < n :: At(a, i) <= At(b, i)
    ensures Prefix(a, n) <= Prefix(b, n)
  {
    if n > 0 {
      PrefixDominates(a, b, n - 1);
    }
  }

  // ---------- a ranking spends each judgement once ----------

  /** Total grade, and number, of the judged pages in `seen`. */
  function SumIn(qrels: seq<Qrel>, seen: set<string>): nat {
    if qrels == [] then 0
    else (if qrels[0].path in seen then qrels[0].grade else 0) + SumIn(qrels[1..], seen)
  }

  function CountIn(qrels: seq<Qrel>, seen: set<string>): nat {
    if qrels == [] then 0
    else (if qrels[0].path in seen then 1 else 0) + CountIn(qrels[1..], seen)
  }

  function GradeOf(qrels: seq<Qrel>, p: string): nat {
    match Lookup(qrels, p) case Some(g) => g case None => 0
  }

  lemma {:induction false} SeeOneMore(qrels: seq<Qrel>, seen: set<string>, p: string)
    requires Judged(qrels) && p !in seen
    ensures SumIn(qrels, seen + {p}) == SumIn(qrels, seen) + GradeOf(qrels, p)
    ensures CountIn(qrels, seen + {p}) <= CountIn(qrels, seen) + 1
    ensures (forall q | q in qrels :: q.path != p) ==> CountIn(qrels, seen + {p}) == CountIn(qrels, seen)
    ensures (forall q | q in qrels :: q.path != p) ==> GradeOf(qrels, p) == 0
  {
    if qrels != [] {
      SeeOneMore(qrels[1..], seen, p);
    }
  }

  lemma {:induction false} NothingSeen(qrels: seq<Qrel>)
    ensures SumIn(qrels, {}) == 0 == CountIn(qrels, {})
  {
    if qrels != [] {
      NothingSeen(qrels[1..]);
    }
  }

  function SeenIn(ranked: seq<string>): set<string> {
    if ranked == [] then {} else SeenIn(ranked[..|ranked| - 1]) + {ranked[|ranked| - 1]}
  }

  lemma {:induction false} SeenIsMembership(ranked: seq<string>)
    ensures forall p :: p in SeenIn(ranked) <==> p in ranked
    decreases |ranked|
  {
    if ranked != [] {
      SeenIsMembership(ranked[..|ranked| - 1]);
    }
  }

  /** A duplicate-free ranking counts no judgement twice: the gains of its first `n` pages are
      the grades of the distinct pages among them, at most `n` of which are judged. */
  lemma {:induction false} GainsAreOfSeenPages(qrels: seq<Qrel>, ranked: seq<string>, n: nat)
    requires Judged(qrels) && NoRepeats(ranked) && n <= |ranked|
    ensures Prefix(Gains(qrels, ranked), n) == SumIn(qrels, SeenIn(ranked[..n]))
    ensures CountIn(qrels, SeenIn(ranked[..n])) <= n
  {
    if n == 0 {
      NothingSeen(qrels);
    } else {
      GainsAreOfSeenPages(qrels, ranked, n - 1);
      var seen := SeenIn(ranked[..n - 1]);
      SeenIsMembership(ranked[..n - 1]);
      assert ranked[..n][..n - 1] == ranked[..n - 1];
      SeeOneMore(qrels, seen, ranked[n - 1]);
    }
  }

  /** No set of pages sums higher than as many top grades. */
  lemma {:induction false} TopSum(t: seq<Qrel>, seen: set<string>)
    requires Descending(t)
    ensures SumIn(t, seen) <= Prefix(Grades(t), CountIn(t, seen))
  {
    if t != [] {
      var rest := t[1..];
      TopSum(rest, seen);
      var c := CountIn(rest, seen);
      PrefixShift(Grades(t), c);
      if t[0].path !in seen {
        forall i: nat | i < c
          ensures At(Grades(rest), i) <= At(Grades(t), i)
        {
          GradesAt(t);
        }
        PrefixDominates(Grades(rest), Grades(t), c);
      }
    }
  }

  lemma {:induction false} GradesAt(qrels: seq<Qrel>)
    ensures |Grades(qrels)| == |qrels|
    ensures forall i | 0 <= i < |qrels| :: Grades(qrels)[i] == qrels[i].grade
    ensures qrels != [] ==> Grades(qrels)[1..] == Grades(qrels[1..])
  {
    if qrels != [] {
      GradesAt(qrels[1..]);
    }
  }

  lemma {:induction false} PrefixBeyond(g: seq<nat>, n: nat)
    requires n >= |g|
    ensures Prefix(g, n) == Prefix(g, |g|)
  {
    if n > |g| {
      PrefixBeyond(g, n - 1);
    }
  }

  /** Against judgements listed best first, every cut of a duplicate-free ranking gathers at
      most what that list gathers. */
  lemma GainsWithinBestFirst(t: seq<Qrel>, ranked: seq<string>, n: nat)
    requires Judged(t) && Descending(t) && NoRepeats(ranked)
    ensures Prefix(Gains(t, ranked), n) <= Prefix(Grades(t), n)
  {
    var m := if n <= |ranked| then n else |ranked|;
    if n > |ranked| {
      PrefixBeyond(Gains(t, ranked), n);
    }
    GainsAreOfSeenPages(t, ranked, m);
    var seen := SeenIn(ranked[..m]);
    TopSum(t, seen);
    PrefixGrows(Grades(t), CountIn(t, seen), n);
  }

  // ---------- sorting keeps the judgements ----------

  lemma {:induction false} InsertAdds(t: seq<Qrel>, x: Qrel)
    ensures forall q :: q in Insert(t, x) <==> q == x || q in t
    ensures |Insert(t, x)| == |t| + 1
  {
    if t != [] && x.grade < t[0].grade {
      InsertAdds(t[1..], x);
      assert t == [t[0]] + t[1..];
    }
  }

  lemma ConsKeepsOrder(h: Qrel, t: seq<Qrel>)
    requires Judged(t) && Descending(t) && forall q | q in t :: q.path != h.path && q.grade <= h.grade
    ensures Judged([h] + t) && Descending([h] + t)
  {
    var all := [h] + t;
    assert forall i | 1 <= i < |all| :: all[i] == t[i - 1] && t[i - 1] in t;
  }

  lemma HeadLeads(t: seq<Qrel>)
    requires Judged(t) && Descending(t) && t != []
    ensures Judged(t[1..]) && Descending(t[1..])
    ensures forall q | q in t :: q.grade <= t[0].grade
    ensures forall q | q in t[1..] :: q.path != t[0].path && q in t
  {
    forall q | q in t[1..]
      ensures q.path != t[0].path && q in t
    {
      var i :| 1 <= i < |t| && t[i] == q;
    }
  }

  lemma {:induction false} InsertKeepsOrder(t: seq<Qrel>, x: Qrel)
    requires Judged(t) && Descending(t) && forall q | q in t :: q.path != x.path
    ensures Judged(Insert(t, x)) && Descending(Insert(t, x))
  {
    if t != [] {
      HeadLeads(t);
    }
    if t == [] || x.grade >= t[0].grade {
      ConsKeepsOrder(x, t);
    } else {
      InsertKeepsOrder(t[1..], x);
      InsertAdds(t[1..], x);
      assert t[0] in t;
      ConsKeepsOrder(t[0], Insert(t[1..], x));
    }
  }

  lemma {:induction false} InsertKeepsLookup(t: seq<Qrel>, x: Qrel, p: string)
    requires forall q | q in t :: q.path != x.path
    ensures Lookup(Insert(t, x), p) == if p == x.path then Some(x.grade) else Lookup(t, p)
  {
    if t != [] && x.grade < t[0].grade {
      InsertKeepsLookup(t[1..], x, p);
    } else {
      assert Insert(t, x)[1..] == t;
    }
  }

  /** The sorted judgements are the same judgements, best first. */
  lemma {:induction false} SortedKeeps(qrels: seq<Qrel>)
    requires Judged(qrels)
    ensures Judged(Sorted(qrels)) && Descending(Sorted(qrels)) && |Sorted(qrels)| == |qrels|
    ensures forall q :: q in Sorted(qrels) <==> q in qrels
    ensures forall p :: Lookup(Sorted(qrels), p) == Lookup(qrels, p)
  {
    if qrels != [] {
      SortedKeeps(qrels[1..]);
      forall q | q in Sorted(qrels[1..])
        ensures q.path != qrels[0].path
      {
        var i :| 1 <= i < |qrels| && qrels[i] == q;
      }
      var t := Sorted(qrels[1..]);
      InsertAdds(t, qrels[0]);
      InsertKeepsOrder(t, qrels[0]);
      forall p
        ensures Lookup(Insert(t, qrels[0]), p) == Lookup(qrels, p)
      {
        InsertKeepsLookup(t, qrels[0], p);
      }
    }
  }

  /** Every cut of a duplicate-free ranking gathers at most what the ideal order gathers. */
  lemma GainsWithinIdeal(qrels: seq<Qrel>, ranked: seq<string>, n: nat)
    requires Judged(qrels) && NoRepeats(ranked)
    ensures Prefix(Gains(qrels, ranked), n) <= Prefix(Ideal(qrels), n)
  {
    SortedKeeps(qrels);
    assert Gains(Sorted(qrels), ranked) == Gains(qrels, ranked);
    GainsWithinBestFirst(Sorted(qrels), ranked, n);
  }

  lemma {:induction false} DiscountedIsNonNegative(w: Weights, g: seq<nat>, n: nat)
    requires Falling(w)
    ensures Discounted(w, g, n) >= 0.0
  {
    if n > 0 {
      DiscountedIsNonNegative(w, g, n - 1);
    }
  }

  // ---------- main results ----------

  lemma PrefixesWithinIdeal(qrels: seq<Qrel>, ranked: seq<string>)
    requires Judged(qrels) && NoRepeats(ranked)
    ensures forall m | 0 <= m <= K :: Prefix(Gains(qrels, ranked), m) <= Prefix(Ideal(qrels), m)
  {
    forall m | 0 <= m <= K
      ensures Prefix(Gains(qrels, ranked), m) <= Prefix(Ideal(qrels), m)
    {
      GainsWithinIdeal(qrels, ranked, m);
    }
  }

  lemma Quotient(x: real, y: real)
    requires 0.0 <= x <= y && y > 0.0
    ensures 0.0 <= x / y <= 1.0
    ensures x / y == 1.0 <==> x == y
  {
    assert x / y * y == x;
  }

  /** For arbitrary graded judgements and any duplicate-free ranking, DCG at K never exceeds the
      ideal DCG, so the normalised score lies in [0, 1]. */
  lemma ScoreIsBounded(w: Weights, qrels: seq<Qrel>, ranked: seq<string>)
    requires Falling(w) && Judged(qrels) && NoRepeats(ranked)
    ensures 0.0 <= Dcg(w, qrels, ranked) <= Idcg(w, qrels)
    ensures 0.0 <= Score(w, qrels, ranked) <= 1.0
  {
    PrefixesWithinIdeal(qrels, ranked);
    PrefixesDecide(w, Gains(qrels, ranked), Ideal(qrels), K);
    DiscountedIsNonNegative(w, Gains(qrels, ranked), K);
    if Idcg(w, qrels) > 0.0 {
      Quotient(Dcg(w, qrels, ranked), Idcg(w, qrels));
    }
  }

  lemma {:induction false} SameGainsSameSum(w: Weights, a: seq<nat>, b: seq<nat>, n: nat)
    requires forall i: nat | i < n :: At(a, i) == At(b, i)
    ensures Discounted(w, a, n) == Discounted(w, b, n)
  {
    if n > 0 {
      SameGainsSameSum(w, a, b, n - 1);
    }
  }

  lemma SumTimes(x: real, y: real, w: real)
    ensures (x + y) * w == x * w + y * w
  {
  }

  /** The sums are linear in the gains. */
  lemma {:induction false} GainsAdd(w: Weights, a: seq<nat>, b: seq<nat>, c: seq<nat>, n: nat)
    requires forall i: nat | i < n :: At(c, i) == At(a, i) + At(b, i)
    ensures Discounted(w, c, n) == Discounted(w, a, n) + Discounted(w, b, n)
  {
    if n > 0 {
      GainsAdd(w, a, b, c, n - 1);
      SumTimes(At(a, n - 1) as real, At(b, n - 1) as real, w(n - 1));
      assert At(c, n - 1) as real == At(a, n - 1) as real + At(b, n - 1) as real;
    }
  }

  lemma {:induction false} OneGain(w: Weights, g: seq<nat>, p: nat, n: nat)
    requires forall i: nat | i != p :: At(g, i) == 0
    ensures Discounted(w, g, n) == if p < n then At(g, p) as real * w(p) else 0.0
  {
    if n > 0 {
      OneGain(w, g, p, n - 1);
    }
  }

  lemma OneJudged(page: Qrel, ranked: seq<string>, p: nat)
    requires NoRepeats(ranked) && p < |ranked| && ranked[p] == page.path
    ensures forall i: nat :: At(Gains([page], ranked), i) == if i == p then page.grade else 0
    ensures Ideal([page]) == [page.grade]
  {
    assert [page][1..] == [];
    forall path
      ensures Lookup([page], path) == if path == page.path then Some(page.grade) else None
    {
    }
    assert Sorted([page]) == [page];
    assert Grades([page]) == [page.grade];
  }

  lemma CommonFactor(x: real, y: real, z: real)
    requires x > 0.0 && z > 0.0
    ensures x * z > 0.0 && x * y / (x * z) == y / z
  {
    assert x * y == y / z * (x * z);
  }

  lemma RatioOfReciprocals(y: real, z: real)
    requires y > 0.0 && z > 0.0
    ensures 1.0 / z > 0.0 && 1.0 / y / (1.0 / z) == z / y
  {
    assert 1.0 / y == z / y * (1.0 / z);
  }

  /** Where one page alone is judged, the sums are one product each. */
  lemma OnePageSums(w: Weights, page: Qrel, ranked: seq<string>, p: nat)
    requires NoRepeats(ranked) && p < |ranked| && ranked[p] == page.path
    ensures Dcg(w, [page], ranked) == if p < 10 then page.grade as real * w(p) else 0.0
    ensures Idcg(w, [page]) == page.grade as real * w(0)
  {
    OneJudged(page, ranked, p);
    OneGain(w, Gains([page], ranked), p, K);
    OneGain(w, Ideal([page]), 0, K);
  }

  lemma OnePageWeighs(w: Weights, page: Qrel, ranked: seq<string>, p: nat)
    requires page.grade > 0 && w(0) > 0.0 && NoRepeats(ranked) && p < |ranked| && ranked[p] == page.path
    ensures Score(w, [page], ranked) == if p < 10 then w(p) / w(0) else 0.0
  {
    OnePageSums(w, page, ranked, p);
    CommonFactor(page.grade as real, w(p), w(0));
  }

  /** Where one page alone is judged, the score is the logarithm of two over that of its one-based
      position plus one, if it is among the first ten, and zero otherwise. */
  lemma OnePageScore(log: Log, page: Qrel, ranked: seq<string>, p: nat)
    requires LogLike(log) && page.grade > 0 && NoRepeats(ranked) && p < |ranked| && ranked[p] == page.path
    ensures Score(LogWeights(log), [page], ranked) == if p < 10 then log(2) / log(p + 2) else 0.0
  {
    RatioOfReciprocals(log(p + 2), log(2));
    OnePageWeighs(LogWeights(log), page, ranked, p);
  }

  /** The first K gains are the ideal ones, position by position. */
  predicate IdealAtK(qrels: seq<Qrel>, ranked: seq<string>) {
    forall i: nat | i < K :: At(Gains(qrels, ranked), i) == At(Ideal(qrels), i)
  }

  /** The score is 1 exactly when some judgement counts and no position falls short of the ideal:
      no other order of gains makes up for one that does. */
  lemma ScoreIsPerfectExactly(w: Weights, qrels: seq<Qrel>, ranked: seq<string>)
    requires Falling(w) && Judged(qrels) && NoRepeats(ranked)
    ensures Score(w, qrels, ranked) == 1.0 <==> Idcg(w, qrels) > 0.0 && IdealAtK(qrels, ranked)
  {
    var a, b := Gains(qrels, ranked), Ideal(qrels);
    PrefixesWithinIdeal(qrels, ranked);
    PrefixesDecide(w, a, b, K);
    ScoreIsBounded(w, qrels, ranked);
    if Idcg(w, qrels) > 0.0 {
      Quotient(Dcg(w, qrels, ranked), Idcg(w, qrels));
    }
    if Dcg(w, qrels, ranked) == Idcg(w, qrels) {
      assert Shortfall(w, a, b, K) == 0.0;
      forall i: nat | i < K
        ensures At(a, i) == At(b, i)
      {
        assert Prefix(a, i + 1) == Prefix(b, i + 1) && Prefix(a, i) == Prefix(b, i);
      }
    }
    if IdealAtK(qrels, ranked) {
      SameGainsSameSum(w, a, b, K);
    }
  }

  function Paths(qrels: seq<Qrel>): seq<string> {
    seq(|qrels|, i requires 0 <= i < |qrels| => qrels[i].path)
  }

  lemma {:induction false} LookupAt(qrels: seq<Qrel>, i: nat)
    requires Judged(qrels) && i < |qrels|
    ensures Lookup(qrels, qrels[i].path) == Some(qrels[i].grade)
  {
    if i > 0 {
      LookupAt(qrels[1..], i - 1);
    }
  }

  lemma GainsOfOwnPaths(t: seq<Qrel>)
    requires Judged(t)
    ensures Gains(t, Paths(t)) == Grades(t)
  {
    GradesAt(t);
    forall i | 0 <= i < |t|
      ensures Gains(t, Paths(t))[i] == Grades(t)[i]
    {
      LookupAt(t, i);
    }
  }

  /** Any best-first order of the judgements gathers the same: ties do not matter. */
  lemma BestFirstOrdersAgree(t: seq<Qrel>, u: seq<Qrel>, n: nat)
    requires Judged(t) && Descending(t) && Judged(u) && Descending(u)
    requires forall p :: Lookup(t, p) == Lookup(u, p)
    ensures Prefix(Grades(t), n) == Prefix(Grades(u), n)
  {
    GainsOfOwnPaths(t);
    GainsOfOwnPaths(u);
    assert Gains(u, Paths(t)) == Gains(t, Paths(t)) && Gains(t, Paths(u)) == Gains(u, Paths(u));
    GainsWithinBestFirst(u, Paths(t), n);
    GainsWithinBestFirst(t, Paths(u), n);
  }

  /** In particular a ranking that opens with all the judged pages, best grades first, scores 1. */
  lemma BestFirstIsPerfect(w: Weights, qrels: seq<Qrel>, best: seq<Qrel>, others: seq<string>)
    requires Falling(w) && Judged(qrels) && NoRepeats(Paths(best) + others) && Idcg(w, qrels) > 0.0
    requires Judged(best) && Descending(best) && forall p :: Lookup(best, p) == Lookup(qrels, p)
    requires forall p | p in others :: Lookup(qrels, p).None?
    ensures Score(w, qrels, Paths(best) + others) == 1.0
  {
    forall i: nat | i < K
      ensures At(Gains(qrels, Paths(best) + others), i) == At(Ideal(qrels), i)
    {
      GainsOfBestFirst(qrels, best, others, i);
      SortedKeeps(qrels);
      BestFirstOrdersAgree(best, Sorted(qrels), i);
      BestFirstOrdersAgree(best, Sorted(qrels), i + 1);
    }
    ScoreIsPerfectExactly(w, qrels, Paths(best) + others);
  }

  lemma GainsOfBestFirst(qrels: seq<Qrel>, best: seq<Qrel>, others: seq<string>, i: nat)
    requires Judged(best) && forall p :: Lookup(best, p) == Lookup(qrels, p)
    requires forall p | p in others :: Lookup(qrels, p).None?
    ensures At(Gains(qrels, Paths(best) + others), i) == At(Grades(best), i)
  {
    var ranked := Paths(best) + others;
    GradesAt(best);
    if i < |best| {
      LookupAt(best, i);
      assert ranked[i] == best[i].path;
    } else if i < |ranked| {
      assert ranked[i] in others;
    }
  }

  // ---------- the scorer ----------

  predicate Unit(x: real) {
    0.0 <= x <= 1.0
  }

  datatype QScore = QScore(recall: bool, mrr: real, ndcg: real, exactAt1: bool)

  /** Zero-based position of the first judged page, or the length when there is none. */
  function FirstJudged(qrels: seq<Qrel>, ranked: seq<string>): nat {
    FirstWhere((path: string) => Lookup(qrels, path).Some?, ranked)
  }

  method FirstRelevant(qrels: seq<Qrel>, ranked: seq<string>) returns (r: nat)
    ensures r <= |ranked| && (r < |ranked| ==> Lookup(qrels, ranked[r]).Some?)
    ensures forall j | 0 <= j < r :: Lookup(qrels, ranked[j]).None?
    ensures r == FirstJudged(qrels, ranked)
  {
    r := 0;
    while r < |ranked| && Lookup(qrels, ranked[r]).None?
      invariant r <= |ranked|
      invariant forall j | 0 <= j < r :: Lookup(qrels, ranked[j]).None?
    {
      r := r + 1;
    }
  }

  /** The loop behind both sums: the first K entries, each over its discount. */
  method SumDiscounted(w: Weights, g: seq<nat>) returns (sum: real)
    ensures sum == Discounted(w, g, K)
  {
    sum := 0.0;
    var cut := if |g| < K then |g| else K;
    for i := 0 to cut
      invariant sum == Discounted(w, g, i)
    {
      sum := sum + g[i] as real * w(i);
    }
    DiscountedBeyond(w, g, cut, K);
  }

  /** The reciprocal rank of the first judged page, none judged being worth zero. */
  predicate IsReciprocalRank(qrels: seq<Qrel>, ranked: seq<string>, s: QScore, r: nat) {
    && r <= |ranked|
    && (forall j | 0 <= j < r :: Lookup(qrels, ranked[j]).None?)
    && (r < |ranked| ==> s.recall && Lookup(qrels, ranked[r]).Some? && s.mrr == 1.0 / (r + 1) as real)
    && (r == |ranked| ==> !s.recall && s.mrr == 0.0)
  }

  method ScoreQuery(log: Log, qrels: seq<Qrel>, ranked: seq<string>) returns (s: QScore)
    requires LogLike(log)
    ensures s.ndcg == Score(LogWeights(log), qrels, ranked)
    ensures exists r :: IsReciprocalRank(qrels, ranked, s, r)
    ensures s.mrr == MrrOf((qrels, ranked)) && Unit(s.mrr)
    ensures s.recall <==> exists path :: path in ranked && Lookup(qrels, path).Some?
    ensures s.exactAt1 <==> ranked != [] && Lookup(qrels, ranked[0]) == Some(2)
  {
    var w := LogWeights(log);
    var firstRel := FirstRelevant(qrels, ranked);
    var recall := firstRel < |ranked|;
    var mrr := if recall then 1.0 / (firstRel + 1) as real else 0.0;
    var dcg := SumDiscounted(w, Gains(qrels, ranked));
    var idcg := SumDiscounted(w, Ideal(qrels));
    var ndcg := if idcg > 0.0 then dcg / idcg else 0.0;
    s := QScore(recall, mrr, ndcg, ranked != [] && Lookup(qrels, ranked[0]) == Some(2));
    Quotient(1.0, (firstRel + 1) as real);
    assert IsReciprocalRank(qrels, ranked, s, firstRel);
  }

  lemma {:induction false} DiscountedBeyond(w: Weights, g: seq<nat>, m: nat, n: nat)
    requires m <= n && forall i: nat | m <= i < n :: At(g, i) == 0
    ensures Discounted(w, g, n) == Discounted(w, g, m)
    decreases n
  {
    if m < n {
      DiscountedBeyond(w, g, m, n - 1);
    }
  }

  // ---------- averages ----------

  datatype Metrics = Metrics(recallAtK: real, mrr: real, ndcgAt10: real, exactAt1: real, n: nat)

  lemma AverageIsUnit(sum: real, n: nat)
    requires 0.0 <= sum <= n as real
    ensures var d := if n == 0 then 1.0 else n as real;
            Unit(sum / d) && sum / d * n as real == sum
  {
    if n > 0 {
      Quotient(sum, n as real);
    }
  }

  /** The metrics are these sums, each over the number of queries. */
  predicate Averages(m: Metrics, recall: real, mrr: real, ndcg: real, exact: real) {
    && m.recallAtK * m.n as real == recall && m.mrr * m.n as real == mrr
    && m.ndcgAt10 * m.n as real == ndcg && m.exactAt1 * m.n as real == exact
  }

  /** Running sums over the queries scored so far. */
  class Acc {
    var n: nat
    var recall: real
    var mrr: real
    var ndcg: real
    var exact: real

    /** Each sum is one of `n` numbers in [0, 1]. */
    ghost predicate Valid()
      reads this
    {
      && 0.0 <= recall <= n as real
      && 0.0 <= mrr <= n as real
      && 0.0 <= ndcg <= n as real
      && 0.0 <= exact <= n as real
    }

    constructor ()
      ensures Valid() && n == 0
    {
      n, recall, mrr, ndcg, exact := 0, 0.0, 0.0, 0.0, 0.0;
    }

    method Push(s: QScore)
      requires Valid() && Unit(s.mrr) && Unit(s.ndcg)
      modifies this
      ensures Valid() && n == old(n) + 1
      ensures recall == old(recall) + (if s.recall then 1.0 else 0.0)
      ensures exact == old(exact) + (if s.exactAt1 then 1.0 else 0.0)
      ensures mrr == old(mrr) + s.mrr && ndcg == old(ndcg) + s.ndcg
    {
      n := n + 1;
      recall := recall + (if s.recall then 1.0 else 0.0);
      mrr := mrr + s.mrr;
      ndcg := ndcg + s.ndcg;
      exact := exact + (if s.exactAt1 then 1.0 else 0.0);
    }

    /** The averages, over at least one query even when there were none. */
    method Finish() returns (m: Metrics)
      requires Valid()
      ensures m.n == n
      ensures n == 0 ==> m == Metrics(0.0, 0.0, 0.0, 0.0, 0)
      ensures Unit(m.recallAtK) && Unit(m.mrr) && Unit(m.ndcgAt10) && Unit(m.exactAt1)
      ensures Averages(m, recall, mrr, ndcg, exact)
    {
      var d := if n == 0 then 1.0 else n as real;
      AverageIsUnit(recall, n);
      AverageIsUnit(mrr, n);
      AverageIsUnit(ndcg, n);
      AverageIsUnit(exact, n);
      m := Metrics(recall / d, mrr / d, ndcg / d, exact / d, n);
    }
  }

  type Query = (seq<Qrel>, seq<string>)

  /** The sum of a metric over the queries. */
  function Total(metric: Query -> real, queries: seq<Query>): real
    decreases |queries|
  {
    if queries == [] then 0.0 else Total(metric, queries[..|queries| - 1]) + metric(queries[|queries| - 1])
  }

  lemma TotalAppend(metric: Query -> real, queries: seq<Query>, q: Query)
    ensures Total(metric, queries + [q]) == Total(metric, queries) + metric(q)
  {
    assert (queries + [q])[..|queries|] == queries;
  }

  function NdcgOf(log: Log): Query -> real {
    (q: Query) => Score(LogWeights(log), q.0, q.1)
  }

  /** The rank, from one on, of the first judged page counts as one over it. */
  function MrrOf(q: Query): real {
    var r := FirstJudged(q.0, q.1);
    if r < |q.1| then 1.0 / (r + 1) as real else 0.0
  }

  function RecallOf(q: Query): real {
    if exists path :: path in q.1 && Lookup(q.0, path).Some? then 1.0 else 0.0
  }

  function ExactOf(q: Query): real {
    if q.1 != [] && Lookup(q.0, q.1[0]) == Some(2) then 1.0 else 0.0
  }

  /** The sums are those over the queries. */
  ghost predicate Sums(acc: Acc, log: Log, queries: seq<Query>)
    reads acc
  {
    && acc.Valid() && acc.n == |queries|
    && acc.recall == Total(RecallOf, queries) && acc.mrr == Total(MrrOf, queries)
    && acc.ndcg == Total(NdcgOf(log), queries) && acc.exact == Total(ExactOf, queries)
  }

  method ScoreAndPush(acc: Acc, log: Log, q: Query, ghost before: seq<Query>)
    requires LogLike(log) && Judged(q.0) && NoRepeats(q.1) && Sums(acc, log, before)
    modifies acc
    ensures Sums(acc, log, before + [q])
  {
    LogWeightsFall(log);
    var s := ScoreQuery(log, q.0, q.1);
    ScoreIsBounded(LogWeights(log), q.0, q.1);
    TotalAppend(RecallOf, before, q);
    TotalAppend(MrrOf, before, q);
    TotalAppend(NdcgOf(log), before, q);
    TotalAppend(ExactOf, before, q);
    acc.Push(s);
  }

  method SumUp(log: Log, queries: seq<Query>) returns (acc: Acc)
    requires LogLike(log)
    requires forall q | q in queries :: Judged(q.0) && NoRepeats(q.1)
    ensures fresh(acc) && Sums(acc, log, queries)
  {
    acc := new Acc();
    for i := 0 to |queries|
      invariant fresh(acc) && Sums(acc, log, queries[..i])
    {
      TakeNext(queries, i);
      ScoreAndPush(acc, log, queries[i], queries[..i]);
    }
    assert queries[..|queries|] == queries;
  }

  /** What one benchmark run reports: the averages over its queries, every one in [0, 1], for any query
      set whose rankings are duplicate-free. */
  method Report(log: Log, queries: seq<Query>) returns (m: Metrics)
    requires LogLike(log)
    requires forall q | q in queries :: Judged(q.0) && NoRepeats(q.1)
    ensures m.n == |queries|
    ensures Unit(m.recallAtK) && Unit(m.mrr) && Unit(m.ndcgAt10) && Unit(m.exactAt1)
    ensures Averages(m, Total(RecallOf, queries), Total(MrrOf, queries), Total(NdcgOf(log), queries),
                     Total(ExactOf, queries))
  {
    var acc := SumUp(log, queries);
    m := acc.Finish();
  }
}
