/** Maps and folds over sequences that several components share. */
module Seqs {
  import opened Wrappers

  predicate NoRepeats<T(==)>(s: seq<T>) {
    forall i, j | 0 <= i < j < |s| :: s[i] != s[j]
  }

  function Elements<T(==)>(s: seq<T>): set<T> {
    set x | x in s
  }

  function Take<T>(s: seq<T>, n: nat): (r: seq<T>)
    ensures r <= s && |r| == if |s| <= n then |s| else n
  {
    if |s| <= n then s else s[..n]
  }

  /** The value of the last item that has one. */
  function LastValue<T, U>(f: T -> Option<U>, s: seq<T>): (r: Option<U>)
    ensures r.None? ==> forall i | 0 <= i < |s| :: f(s[i]).None?
    ensures r.Some? ==> exists i :: 0 <= i < |s| && f(s[i]) == r && forall j | i < j < |s| :: f(s[j]).None?
    decreases |s|
  {
    if s == [] then None
    else if f(s[|s| - 1]).Some? then f(s[|s| - 1])
    else LastValue(f, s[..|s| - 1])
  }

  lemma LastValueAppend<T, U>(f: T -> Option<U>, s: seq<T>, last: T)
    ensures LastValue(f, s + [last]) == if f(last).Some? then f(last) else LastValue(f, s)
  {
    assert (s + [last])[..|s|] == s;
  }

  lemma {:induction false} LastValueCons<T, U>(f: T -> Option<U>, s: seq<T>)
    requires s != []
    ensures LastValue(f, s) == if LastValue(f, s[1..]).Some? then LastValue(f, s[1..]) else f(s[0])
    decreases |s|
  {
    if |s| > 1 {
      assert s[..|s| - 1][1..] == s[1..][..|s| - 2];
      LastValueCons(f, s[..|s| - 1]);
    }
  }

  /** The position of the first item that satisfies `p`, or the length when none does. */
  function FirstWhere<T>(p: T -> bool, s: seq<T>): (k: nat)
    ensures k <= |s| && (k < |s| ==> p(s[k]))
    ensures forall i | 0 <= i < k :: !p(s[i])
  {
    if s == [] || p(s[0]) then 0 else 1 + FirstWhere(p, s[1..])
  }

  lemma TailAppend<T>(a: seq<T>, b: seq<T>)
    requires a != []
    ensures (a + b)[0] == a[0] && (a + b)[1..] == a[1..] + b
  {
  }

  lemma InitAppend<T>(a: seq<T>, b: seq<T>)
    requires b != []
    ensures (a + b)[..|a + b| - 1] == a + b[..|b| - 1] && (a + b)[|a + b| - 1] == b[|b| - 1]
  {
  }

  lemma AppendEmpty<T>(a: seq<T>)
    ensures a + [] == a == [] + a
  {
  }

  lemma AppendAssociates<T>(a: seq<T>, b: seq<T>, c: seq<T>)
    ensures a + b + c == a + (b + c)
  {
  }

  lemma ConsMembers<T>(x: T, s: seq<T>)
    ensures forall t :: t in [x] + s <==> t == x || t in s
  {
  }

  lemma AppendNests<T>(a: seq<T>, b: seq<T>, c: seq<T>, d: seq<T>)
    ensures a + b + c + d == a + (b + (c + d)) == a + (b + c) + d
  {
  }

  lemma HeadTail<T>(s: seq<T>)
    requires s != []
    ensures s == [s[0]] + s[1..]
  {
  }

  lemma SplitAt<T>(s: seq<T>, n: nat)
    requires n <= |s|
    ensures s == s[..n] + s[n..]
  {
  }

  lemma DropAppend<T>(a: seq<T>, b: seq<T>, n: nat)
    requires n <= |a|
    ensures (a + b)[..n] == a[..n] && (a + b)[n..] == a[n..] + b
  {
  }

  lemma DropPast<T>(a: seq<T>, b: seq<T>, n: nat)
    requires n <= |b|
    ensures (a + b)[|a| + n..] == b[n..]
  {
  }

  lemma TakeOfDrop<T>(s: seq<T>, n: nat, m: nat)
    requires n + m <= |s|
    ensures s[n..][..m] == s[n..n + m]
  {
  }

  lemma TakeNext<T>(s: seq<T>, i: nat)
    requires i < |s|
    ensures s[..i + 1] == s[..i] + [s[i]]
  {
  }

  function Map<T, U>(f: T -> U, s: seq<T>): (r: seq<U>)
    ensures |r| == |s| && forall i | 0 <= i < |s| :: r[i] == f(s[i])
  {
    seq(|s|, i requires 0 <= i < |s| => f(s[i]))
  }

  function FlatMap<T, U>(f: T -> seq<U>, s: seq<T>): seq<U> {
    if s == [] then [] else f(s[0]) + FlatMap(f, s[1..])
  }

  function Filter<T>(p: T -> bool, s: seq<T>): seq<T> {
    if s == [] then [] else (if p(s[0]) then [s[0]] else []) + Filter(p, s[1..])
  }

  function Count<T>(p: T -> bool, s: seq<T>): nat {
    if s == [] then 0 else (if p(s[0]) then 1 else 0) + Count(p, s[1..])
  }

  lemma ElementsStep<T>(s: seq<T>, i: nat)
    requires i < |s|
    ensures Elements(s[..i + 1]) == Elements(s[..i]) + {s[i]}
    ensures s[i] in Elements(s)
  {
    TakeNext(s, i);
  }

  lemma NoElements<T>(s: seq<T>)
    ensures Elements(s) == {} <==> s == []
  {
    if s != [] {
      assert s[0] in Elements(s);
    }
  }

  lemma ElementsConcat<T>(a: seq<T>, b: seq<T>)
    ensures Elements(a + b) == Elements(a) + Elements(b)
  {
  }

  lemma MapHead<T, U>(f: T -> U, s: seq<T>)
    requires s != []
    ensures Map(f, s) == [f(s[0])] + Map(f, s[1..])
  {
  }

  lemma MapStep<T, U>(f: T -> U, s: seq<T>, i: nat)
    requires i < |s|
    ensures Map(f, s[..i + 1]) == Map(f, s[..i]) + [f(s[i])]
  {
  }

  lemma {:induction false} FlatMapAppend<T, U>(f: T -> seq<U>, a: seq<T>, b: seq<T>)
    ensures FlatMap(f, a + b) == FlatMap(f, a) + FlatMap(f, b)
  {
    if a == [] {
      AppendEmpty(b);
      AppendEmpty(FlatMap(f, b));
    } else {
      TailAppend(a, b);
      FlatMapAppend(f, a[1..], b);
      AppendAssociates(f(a[0]), FlatMap(f, a[1..]), FlatMap(f, b));
    }
  }

  lemma FlatMapOne<T, U>(f: T -> seq<U>, x: T)
    ensures FlatMap(f, [x]) == f(x)
  {
    assert [x][1..] == [];
    AppendEmpty(f(x));
  }

  lemma FlatMapSecond<T, U>(f: T -> seq<U>, x: T, y: T)
    requires f(x) == []
    ensures FlatMap(f, [x, y]) == f(y)
  {
    assert [x, y][1..] == [y];
    FlatMapOne(f, y);
    assert [] + f(y) == f(y);
  }

  lemma FlatMapStep<T, U>(f: T -> seq<U>, s: seq<T>, i: nat)
    requires i < |s|
    ensures FlatMap(f, s[..i + 1]) == FlatMap(f, s[..i]) + f(s[i])
  {
    TakeNext(s, i);
    FlatMapAppend(f, s[..i], [s[i]]);
    AppendEmpty(f(s[i]));
  }

  lemma {:induction false} FilterAppend<T>(p: T -> bool, a: seq<T>, x: T)
    ensures Filter(p, a + [x]) == Filter(p, a) + if p(x) then [x] else []
  {
    if a == [] {
      AppendEmpty([x]);
    } else {
      TailAppend(a, [x]);
      FilterAppend(p, a[1..], x);
      AppendAssociates(if p(a[0]) then [a[0]] else [], Filter(p, a[1..]), if p(x) then [x] else []);
    }
  }

  lemma {:induction false} FilterConcat<T>(p: T -> bool, a: seq<T>, b: seq<T>)
    ensures Filter(p, a + b) == Filter(p, a) + Filter(p, b)
  {
    if a == [] {
      AppendEmpty(b);
    } else {
      TailAppend(a, b);
      FilterConcat(p, a[1..], b);
      AppendAssociates(if p(a[0]) then [a[0]] else [], Filter(p, a[1..]), Filter(p, b));
    }
  }

  lemma FilterStep<T>(p: T -> bool, s: seq<T>, i: nat)
    requires i < |s|
    ensures Filter(p, s[..i + 1]) == Filter(p, s[..i]) + if p(s[i]) then [s[i]] else []
  {
    TakeNext(s, i);
    FilterAppend(p, s[..i], s[i]);
  }

  lemma {:induction false} FilterMembers<T>(p: T -> bool, s: seq<T>)
    ensures forall x :: x in Filter(p, s) <==> x in s && p(x)
  {
    if s != [] {
      FilterMembers(p, s[1..]);
    }
  }

  lemma {:induction false} FilterAll<T>(p: T -> bool, s: seq<T>)
    requires forall x | x in s :: p(x)
    ensures Filter(p, s) == s
  {
    if s != [] {
      HeadTail(s);
      FilterAll(p, s[1..]);
    }
  }

  lemma {:induction false} FilterShrinks<T>(p: T -> bool, s: seq<T>)
    ensures |Filter(p, s)| <= |s|
  {
    if s != [] {
      FilterShrinks(p, s[1..]);
    }
  }

  lemma {:induction false} CountAppend<T>(p: T -> bool, a: seq<T>, x: T)
    ensures Count(p, a + [x]) == Count(p, a) + if p(x) then 1 else 0
  {
    if a == [] {
      AppendEmpty([x]);
    } else {
      TailAppend(a, [x]);
      CountAppend(p, a[1..], x);
    }
  }

  lemma CountStep<T>(p: T -> bool, s: seq<T>, i: nat)
    requires i < |s|
    ensures Count(p, s[..i + 1]) == Count(p, s[..i]) + if p(s[i]) then 1 else 0
  {
    TakeNext(s, i);
    CountAppend(p, s[..i], s[i]);
  }

  lemma {:induction false} CountIsZero<T>(p: T -> bool, s: seq<T>)
    ensures Count(p, s) == 0 <==> forall x | x in s :: !p(x)
  {
    if s != [] {
      CountIsZero(p, s[1..]);
    }
  }

  function Repeat<T>(x: seq<T>, n: nat): seq<T> {
    if n == 0 then [] else x + Repeat(x, n - 1)
  }

  lemma {:induction false} SameFlatMap<T(!new), U>(f: T -> seq<U>, g: T -> seq<U>, s: seq<T>)
    requires forall t :: f(t) == g(t)
    ensures FlatMap(f, s) == FlatMap(g, s)
  {
    if s != [] {
      SameFlatMap(f, g, s[1..]);
    }
  }

  /** When every item contributes either `x` or nothing, the result is `x` repeated. */
  lemma {:induction false} FlatMapRepeats<T(!new), U>(f: T -> seq<U>, p: T -> bool, s: seq<T>, x: seq<U>)
    requires forall t :: f(t) == if p(t) then x else []
    ensures FlatMap(f, s) == Repeat(x, Count(p, s))
  {
    if s != [] {
      FlatMapRepeats(f, p, s[1..], x);
      AppendEmpty(FlatMap(f, s[1..]));
    }
  }

  lemma {:induction false} FlatMapOfMap<T(!new), U, V>(f: U -> seq<V>, g: T -> U, h: T -> seq<V>, s: seq<T>)
    requires forall t :: f(g(t)) == h(t)
    ensures FlatMap(f, Map(g, s)) == FlatMap(h, s)
  {
    if s != [] {
      assert Map(g, s)[1..] == Map(g, s[1..]);
      FlatMapOfMap(f, g, h, s[1..]);
    }
  }

  lemma {:induction false} FlatMapMembers<T, U>(f: T -> seq<U>, s: seq<T>)
    ensures forall y :: y in FlatMap(f, s) <==> exists x :: x in s && y in f(x)
  {
    if s != [] {
      FlatMapMembers(f, s[1..]);
      HeadTail(s);
    }
  }

  lemma {:induction false} FlatMapEmpty<T, U>(f: T -> seq<U>, s: seq<T>)
    ensures FlatMap(f, s) == [] <==> forall x | x in s :: f(x) == []
  {
    if s != [] {
      FlatMapEmpty(f, s[1..]);
      HeadTail(s);
    }
  }

  /** Items taken in from the left. */
  function FoldLeft<S, T>(f: (S, T) -> S, s: S, xs: seq<T>): S {
    if xs == [] then s else FoldLeft(f, f(s, xs[0]), xs[1..])
  }

  /** What holds of no items and is kept by one more holds of all that were taken in. */
  lemma {:induction false} FoldKeeps<S(!new), T(!new)>(
      f: (S, T) -> S, s: S, xs: seq<T>, n: nat, inv: (S, seq<T>) -> bool)
    requires n <= |xs| && inv(s, []) && forall r, done, x | inv(r, done) :: inv(f(r, x), done + [x])
    ensures inv(FoldLeft(f, s, xs[..n]), xs[..n])
  {
    if n > 0 {
      FoldKeeps(f, s, xs, n - 1, inv);
      FoldStep(f, s, xs, n - 1);
      TakeNext(xs, n - 1);
    } else {
      assert xs[..n] == [];
    }
  }

  lemma {:induction false} FoldAppend<S, T>(f: (S, T) -> S, s: S, xs: seq<T>, last: T)
    ensures FoldLeft(f, s, xs + [last]) == f(FoldLeft(f, s, xs), last)
  {
    if xs == [] {
      AppendEmpty([last]);
    } else {
      TailAppend(xs, [last]);
      FoldAppend(f, f(s, xs[0]), xs[1..], last);
    }
  }

  lemma FoldOne<S, T>(f: (S, T) -> S, s: S, x: T)
    ensures FoldLeft(f, s, [x]) == f(s, x)
  {
    assert [x][1..] == [];
  }

  lemma FoldStep<S, T>(f: (S, T) -> S, s: S, xs: seq<T>, i: nat)
    requires i < |xs|
    ensures FoldLeft(f, s, xs[..i + 1]) == f(FoldLeft(f, s, xs[..i]), xs[i])
  {
    TakeNext(xs, i);
    FoldAppend(f, s, xs[..i], xs[i]);
  }

  /** If every mapped item acts, once `set` has been applied, as the item does before it, then so
      does the whole run. */
  lemma {:induction false} FoldOver<S(!new), T(!new)>(f: (S, T) -> S, g: T -> T, put: S -> S, s: S, xs: seq<T>)
    requires forall m, t :: f(put(m), g(t)) == put(f(m, t))
    ensures FoldLeft(f, put(s), Map(g, xs)) == put(FoldLeft(f, s, xs))
  {
    if xs != [] {
      MapHead(g, xs);
      TailAppend([g(xs[0])], Map(g, xs[1..]));
      AppendEmpty(Map(g, xs[1..]));
      FoldOver(f, g, put, f(s, xs[0]), xs[1..]);
    }
  }

  /** If moreover the items marked by `p` apply `put` themselves once mapped, and the others are
      left alone, then one marked item is enough. */
  lemma {:induction false} FoldPuts<S(!new), T(!new)>(
      f: (S, T) -> S, g: T -> T, put: S -> S, p: T -> bool, s: S, xs: seq<T>)
    requires forall m, t :: f(put(m), g(t)) == put(f(m, t))
    requires forall m, t | p(t) :: f(m, g(t)) == put(f(m, t))
    requires forall t | !p(t) :: g(t) == t
    ensures Count(p, xs) > 0 ==> FoldLeft(f, s, Map(g, xs)) == put(FoldLeft(f, s, xs))
    ensures Count(p, xs) == 0 ==> Map(g, xs) == xs
  {
    if xs != [] {
      MapHead(g, xs);
      TailAppend([g(xs[0])], Map(g, xs[1..]));
      AppendEmpty(Map(g, xs[1..]));
      HeadTail(xs);
      if p(xs[0]) {
        FoldOver(f, g, put, f(s, xs[0]), xs[1..]);
      } else {
        FoldPuts(f, g, put, p, f(s, xs[0]), xs[1..]);
      }
    }
  }

  // ---------- sums ----------

  function SumSeq<T>(f: T -> nat, s: seq<T>): nat {
    if s == [] then 0 else SumSeq(f, s[..|s| - 1]) + f(s[|s| - 1])
  }

  ghost function SumOver<T(!new)>(f: T -> nat, s: set<T>): nat {
    if s == {} then 0 else var x :| x in s; f(x) + SumOver(f, s - {x})
  }

  /** The order a set is summed in does not matter. */
  lemma {:induction false} SumOverPick<T(!new)>(f: T -> nat, s: set<T>, x: T)
    requires x in s
    ensures SumOver(f, s) == f(x) + SumOver(f, s - {x})
  {
    var first :| first in s && SumOver(f, s) == f(first) + SumOver(f, s - {first});
    if first != x {
      SumOverPick(f, s - {first}, x);
      SumOverPick(f, s - {x}, first);
      assert s - {first} - {x} == s - {x} - {first};
    }
  }

  /** A sequence without repeats has the length and the sum of its elements. */
  lemma {:induction false} DistinctSum<T(!new)>(f: T -> nat, s: seq<T>)
    requires NoRepeats(s)
    ensures |s| == |Elements(s)| && SumSeq(f, s) == SumOver(f, Elements(s))
    decreases |s|
  {
    if s != [] {
      var n := |s| - 1;
      DistinctSum(f, s[..n]);
      ElementsStep(s, n);
      assert s[..n + 1] == s;
      assert Elements(s) - {s[n]} == Elements(s[..n]);
      SumOverPick(f, Elements(s), s[n]);
    }
  }
}
