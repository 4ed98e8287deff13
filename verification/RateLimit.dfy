/** The per-tenant token bucket in front of the chat endpoint, over exact reals. Times are
    seconds on one monotonic clock. */
module RateLimit {
  import opened Wrappers

  type Tenant = string

  /** Tokens per minute and the most a bucket holds. */
  datatype Limits = Limits(rpm: real, burst: real)

  datatype Bucket = Bucket(tokens: real, lastRefill: real)

  function Max(x: real, y: real): real {
    if x >= y then x else y
  }

  function Min(x: real, y: real): real {
    if x <= y then x else y
  }

  /** The clamps applied to configured numbers; 30 per minute and a burst of 10 by default. */
  function FromEnv(rpm: Option<real>, burst: Option<real>): (l: Limits)
    ensures l.rpm >= 1.0 && l.burst >= 1.0
    ensures rpm.Some? && rpm.value >= 1.0 ==> l.rpm == rpm.value
    ensures burst.Some? && burst.value >= 1.0 ==> l.burst == burst.value
    ensures rpm.None? ==> l.rpm == 30.0
    ensures burst.None? ==> l.burst == 10.0
  {
    Limits(Max(if rpm.Some? then rpm.value else 30.0, 1.0), Max(if burst.Some? then burst.value else 10.0, 1.0))
  }

  function Ceil(x: real): (n: int)
    ensures (n - 1) as real < x <= n as real
  {
    -((-x).Floor)
  }

  /** Tokens gained in `elapsed` seconds. */
  function Gain(l: Limits, elapsed: real): real {
    elapsed * l.rpm / 60.0
  }

  /** Lazy refill up to `now`; a clock reading before the last refill counts as no time. */
  function Refill(l: Limits, b: Bucket, now: real): Bucket {
    Bucket(Min(b.tokens + Gain(l, Max(now - b.lastRefill, 0.0)), l.burst), now)
  }

  const U64_MAX: nat := 0xFFFF_FFFF_FFFF_FFFF

  /** A number of seconds cast to 64 bits: out of range it saturates. */
  function Saturate(secs: int): nat {
    if secs < 0 then 0 else if secs > U64_MAX then U64_MAX else secs
  }

  /** Whole seconds until `need` tokens have come in; without a refill the quotient is infinite. */
  function SecondsFor(l: Limits, need: real): nat {
    if l.rpm == 0.0 then U64_MAX else Saturate(Ceil(need * 60.0 / l.rpm))
  }

  /** Whole seconds to wait for the rest of a token, at least one. */
  function RetryAfter(l: Limits, tokens: real): nat {
    var secs := SecondsFor(l, 1.0 - tokens);
    if secs < 1 then 1 else secs
  }

  datatype Decision = Decision(bucket: Bucket, outcome: Result<(), nat>)

  function Decide(l: Limits, b: Bucket, now: real): Decision {
    var r := Refill(l, b, now);
    if r.tokens >= 1.0 then Decision(r.(tokens := r.tokens - 1.0), Ok(()))
    else Decision(r, Err(RetryAfter(l, r.tokens)))
  }

  /** A tenant's bucket, full on first use. */
  function BucketOf(l: Limits, buckets: map<Tenant, Bucket>, t: Tenant, now: real): Bucket {
    if t in buckets then buckets[t] else Bucket(l.burst, now)
  }

  class ChatRateLimiter {
    const limits: Limits
    var buckets: map<Tenant, Bucket>

    constructor (limits: Limits)
      ensures this.limits == limits && buckets == map[]
    {
      this.limits := limits;
      buckets := map[];
    }

    method Check(tenant: Tenant, now: real) returns (r: Result<(), nat>)
      modifies this`buckets
      ensures var d := Decide(limits, BucketOf(limits, old(buckets), tenant, now), now);
              r == d.outcome && buckets == old(buckets)[tenant := d.bucket]
    {
      var bucket := BucketOf(limits, buckets, tenant, now);
      var elapsed := Max(now - bucket.lastRefill, 0.0);
      bucket := Bucket(Min(bucket.tokens + Gain(limits, elapsed), limits.burst), now);
      if bucket.tokens >= 1.0 {
        bucket := bucket.(tokens := bucket.tokens - 1.0);
        r := Ok(());
      } else {
        var need := 1.0 - bucket.tokens;
        var secs := SecondsFor(limits, need);
        r := Err(if secs < 1 then 1 else secs);
      }
      buckets := buckets[tenant := bucket];
    }
  }

  // ---------- runs ----------

  datatype Call = Call(tenant: Tenant, at: real)

  predicate Ordered(calls: seq<Call>) {
    forall i, j | 0 <= i <= j < |calls| :: calls[i].at <= calls[j].at
  }

  /** The buckets after the first `j` checks of a run. */
  function After(l: Limits, calls: seq<Call>, j: nat): map<Tenant, Bucket>
    requires j <= |calls|
  {
    if j == 0 then map[]
    else var before, c := After(l, calls, j - 1), calls[j - 1];
         before[c.tenant := NextBucket(l, before, c)]
  }

  function NextBucket(l: Limits, buckets: map<Tenant, Bucket>, c: Call): Bucket {
    Decide(l, BucketOf(l, buckets, c.tenant, c.at), c.at).bucket
  }

  /** What the `i`-th check of a run answers. */
  function Outcome(l: Limits, calls: seq<Call>, i: nat): Result<(), nat>
    requires i < |calls|
  {
    Decide(l, BucketOf(l, After(l, calls, i), calls[i].tenant, calls[i].at), calls[i].at).outcome
  }

  function Admissions(l: Limits, calls: seq<Call>, t: Tenant, i: nat, j: nat): nat
    requires i <= j <= |calls|
    decreases j
  {
    if i == j then 0
    else Admissions(l, calls, t, i, j - 1)
         + (if calls[j - 1].tenant == t && Outcome(l, calls, j - 1).Ok? then 1 else 0)
  }

  lemma {:induction false} BucketsAreCurrent(l: Limits, calls: seq<Call>, j: nat, t: Tenant)
    requires l.rpm >= 0.0 && Ordered(calls) && j <= |calls| && t in After(l, calls, j)
    ensures forall k | j <= k < |calls| :: After(l, calls, j)[t].lastRefill <= calls[k].at
    ensures l.burst >= 0.0 ==> After(l, calls, j)[t].tokens >= 0.0
  {
    if j > 0 {
      if t in After(l, calls, j - 1) {
        BucketsAreCurrent(l, calls, j - 1, t);
      }
      if calls[j - 1].tenant == t {
        var b := BucketOf(l, After(l, calls, j - 1), t, calls[j - 1].at);
        GainIsMonotone(l, 0.0, Max(calls[j - 1].at - b.lastRefill, 0.0));
      }
    }
  }

  lemma GainIsMonotone(l: Limits, x: real, y: real)
    requires l.rpm >= 0.0 && x <= y
    ensures Gain(l, x) <= Gain(l, y) && Gain(l, 0.0) == 0.0
    ensures Gain(l, y) == Gain(l, x) + Gain(l, y - x)
  {
    assert (y - x) * l.rpm >= 0.0;
    assert y * l.rpm == x * l.rpm + (y - x) * l.rpm;
  }

  /** `t` is checked within calls `i` to `j`. */
  ghost predicate Checked(calls: seq<Call>, t: Tenant, i: nat, j: nat)
    requires i <= j <= |calls|
  {
    exists k :: i <= k < j && calls[k].tenant == t
  }

  /** What the last check, one of `t`'s, changes. */
  lemma OwnCheck(l: Limits, calls: seq<Call>, t: Tenant, i: nat, j: nat)
    requires i < j <= |calls| && calls[j - 1].tenant == t
    ensures var now := calls[j - 1].at;
            var d := Decide(l, BucketOf(l, After(l, calls, j - 1), t, now), now);
            && t in After(l, calls, j) && After(l, calls, j)[t] == d.bucket && d.bucket.lastRefill == now
            && Admissions(l, calls, t, i, j) == Admissions(l, calls, t, i, j - 1) + Spent(d)
  {
  }

  lemma CheckedStep(calls: seq<Call>, t: Tenant, i: nat, j: nat)
    requires i < j <= |calls|
    ensures Checked(calls, t, i, j) <==> calls[j - 1].tenant == t || Checked(calls, t, i, j - 1)
  {
  }

  function Spent(d: Decision): nat {
    if d.outcome.Ok? then 1 else 0
  }

  /** One check spends no more than the refilled bucket held. */
  lemma CheckConserves(l: Limits, b: Bucket, now: real, start: real, spent: nat)
    requires l.rpm >= 0.0 && start <= now
    ensures var d := Decide(l, b, now);
            && Conserved(l, Spent(d), d.bucket, start)
            && (start <= b.lastRefill <= now && Conserved(l, spent, b, start) ==>
                  Conserved(l, spent + Spent(d), d.bucket, start))
  {
    GainIsMonotone(l, 0.0, now - start);
    if start <= b.lastRefill <= now {
      GainIsMonotone(l, b.lastRefill - start, now - start);
      assert now - start - (b.lastRefill - start) == now - b.lastRefill;
    }
  }

  /** Admissions so far plus the tokens left are at most a full bucket plus what has been
      refilled since `start`. */
  predicate Conserved(l: Limits, admitted: nat, b: Bucket, start: real) {
    admitted as real + b.tokens <= l.burst + Gain(l, b.lastRefill - start)
  }

  /** The bucket of `t` after the first `j` calls, with what was admitted since the `i`-th. */
  predicate Balanced(l: Limits, calls: seq<Call>, t: Tenant, i: nat, j: nat, start: real, stop: real)
    requires i <= j <= |calls|
  {
    && t in After(l, calls, j)
    && start <= After(l, calls, j)[t].lastRefill <= stop
    && Conserved(l, Admissions(l, calls, t, i, j), After(l, calls, j)[t], start)
  }

  /** A first check balances by itself, a later one keeps the balance. */
  lemma OwnCheckBalances(l: Limits, calls: seq<Call>, t: Tenant, i: nat, j: nat, start: real, stop: real)
    requires l.rpm >= 0.0 && Ordered(calls) && i < j <= |calls| && calls[j - 1].tenant == t
    requires start <= calls[j - 1].at <= stop
    requires Admissions(l, calls, t, i, j - 1) == 0 || Balanced(l, calls, t, i, j - 1, start, stop)
    ensures Balanced(l, calls, t, i, j, start, stop)
  {
    var now, spent := calls[j - 1].at, Admissions(l, calls, t, i, j - 1);
    OwnCheck(l, calls, t, i, j);
    if spent > 0 {
      BucketsAreCurrent(l, calls, j - 1, t);
    }
    CheckConserves(l, BucketOf(l, After(l, calls, j - 1), t, now), now, start, spent);
  }

  lemma OthersCheckBalances(l: Limits, calls: seq<Call>, t: Tenant, i: nat, j: nat, start: real, stop: real)
    requires i < j <= |calls| && calls[j - 1].tenant != t
    ensures Admissions(l, calls, t, i, j) == Admissions(l, calls, t, i, j - 1)
    ensures Balanced(l, calls, t, i, j - 1, start, stop) ==> Balanced(l, calls, t, i, j, start, stop)
  {
  }

  /** Conservation, for a window of calls that all fall between `start` and `stop`. */
  lemma {:induction false} TokensAreConserved(
    l: Limits, calls: seq<Call>, t: Tenant, i: nat, j: nat, start: real, stop: real)
    requires l.rpm >= 0.0 && Ordered(calls) && i <= j <= |calls|
    requires forall k | i <= k < j :: start <= calls[k].at <= stop
    ensures !Checked(calls, t, i, j) ==> Admissions(l, calls, t, i, j) == 0
    ensures Checked(calls, t, i, j) ==> Balanced(l, calls, t, i, j, start, stop)
    decreases j
  {
    if i < j {
      TokensAreConserved(l, calls, t, i, j - 1, start, stop);
      CheckedStep(calls, t, i, j);
      if calls[j - 1].tenant == t {
        OwnCheckBalances(l, calls, t, i, j, start, stop);
      } else {
        OthersCheckBalances(l, calls, t, i, j, start, stop);
      }
    }
  }

  /** For every run of checks at non-decreasing times, a tenant is admitted at most
      burst + T * rpm / 60 times in any window of T seconds, whoever else is checking. */
  lemma WindowBound(l: Limits, calls: seq<Call>, t: Tenant, i: nat, j: nat, start: real, T: real)
    requires l.rpm >= 0.0 && l.burst >= 0.0 && T >= 0.0 && Ordered(calls) && i <= j <= |calls|
    requires forall k | i <= k < j :: start <= calls[k].at <= start + T
    ensures Admissions(l, calls, t, i, j) as real <= l.burst + Gain(l, T)
  {
    TokensAreConserved(l, calls, t, i, j, start, start + T);
    GainIsMonotone(l, 0.0, T);
    if Checked(calls, t, i, j) {
      BucketsAreCurrent(l, calls, j, t);
      var b := After(l, calls, j)[t];
      var gained, cap := Gain(l, b.lastRefill - start), Gain(l, T);
      assert gained <= cap by {
        GainIsMonotone(l, b.lastRefill - start, T);
      }
      assert Admissions(l, calls, t, i, j) as real + b.tokens <= l.burst + gained;
    }
  }

  // ---------- exactly who is admitted ----------

  /** What the bucket of check `i` held, refilled, when it was checked. */
  function LevelAt(l: Limits, calls: seq<Call>, i: nat): real
    requires i < |calls|
  {
    Refill(l, BucketOf(l, After(l, calls, i), calls[i].tenant, calls[i].at), calls[i].at).tokens
  }

  /** What a window that begins with check `k` leaves at `until`, its checks before `j` made: a full
      bucket and what is refilled meanwhile, less what was admitted in it. */
  function Room(l: Limits, calls: seq<Call>, k: nat, j: nat, until: real): real
    requires k <= j <= |calls| && k < |calls|
  {
    l.burst + Gain(l, until - calls[k].at) - Admissions(l, calls, calls[k].tenant, k, j) as real
  }

  /** The windows of `t` that begin before check `j` all leave at least `tokens`, and one just that. */
  ghost predicate LeastRoom(l: Limits, calls: seq<Call>, t: Tenant, j: nat, until: real, tokens: real)
    requires j <= |calls|
  {
    && (forall k | 0 <= k < j && calls[k].tenant == t :: tokens <= Room(l, calls, k, j, until))
    && (exists k :: 0 <= k < j && calls[k].tenant == t && tokens == Room(l, calls, k, j, until))
  }

  /** The same for the windows that end with check `i`, its own included. */
  ghost predicate IsLevel(l: Limits, calls: seq<Call>, i: nat, level: real)
    requires i < |calls|
  {
    && (forall k | 0 <= k <= i && calls[k].tenant == calls[i].tenant :: level <= Room(l, calls, k, i, calls[i].at))
    && (exists k :: 0 <= k <= i && calls[k].tenant == calls[i].tenant && level == Room(l, calls, k, i, calls[i].at))
  }

  /** What the bucket of `t` holds is what its windows leave. */
  ghost predicate Ledger(l: Limits, calls: seq<Call>, t: Tenant, j: nat)
    requires j <= |calls|
  {
    if t in After(l, calls, j) then
      LeastRoom(l, calls, t, j, After(l, calls, j)[t].lastRefill, After(l, calls, j)[t].tokens)
    else forall k | 0 <= k < j :: calls[k].tenant != t
  }

  lemma RoomGrows(l: Limits, calls: seq<Call>, k: nat, j: nat, from: real, until: real)
    requires k <= j <= |calls| && k < |calls|
    ensures Room(l, calls, k, j, until) == Room(l, calls, k, j, from) + Gain(l, until - from)
  {
    assert (until - calls[k].at) * l.rpm == (from - calls[k].at) * l.rpm + (until - from) * l.rpm;
  }

  lemma LeastRoomGrows(l: Limits, calls: seq<Call>, t: Tenant, j: nat, from: real, until: real, tokens: real)
    requires j <= |calls| && LeastRoom(l, calls, t, j, from, tokens)
    ensures LeastRoom(l, calls, t, j, until, tokens + Gain(l, until - from))
  {
    forall k | 0 <= k < j && calls[k].tenant == t
      ensures Room(l, calls, k, j, until) == Room(l, calls, k, j, from) + Gain(l, until - from)
    {
      RoomGrows(l, calls, k, j, from, until);
    }
  }

  lemma LedgerGivesLevel(l: Limits, calls: seq<Call>, i: nat)
    requires l.rpm >= 0.0 && Ordered(calls) && i < |calls| && Ledger(l, calls, calls[i].tenant, i)
    ensures IsLevel(l, calls, i, LevelAt(l, calls, i))
  {
    var t, now := calls[i].tenant, calls[i].at;
    assert Gain(l, 0.0) == 0.0;
    assert Room(l, calls, i, i, now) == l.burst;
    if t in After(l, calls, i) {
      var b := After(l, calls, i)[t];
      BucketsAreCurrent(l, calls, i, t);
      LeastRoomGrows(l, calls, t, i, b.lastRefill, now, b.tokens);
    }
  }

  lemma OwnCheckSpends(l: Limits, calls: seq<Call>, i: nat)
    requires i < |calls| && IsLevel(l, calls, i, LevelAt(l, calls, i))
    ensures Ledger(l, calls, calls[i].tenant, i + 1)
  {
    var t, now := calls[i].tenant, calls[i].at;
    var d := Decide(l, BucketOf(l, After(l, calls, i), t, now), now);
    assert d.bucket.tokens == LevelAt(l, calls, i) - Spent(d) as real;
    forall k | 0 <= k <= i && calls[k].tenant == t
      ensures Room(l, calls, k, i + 1, now) == Room(l, calls, k, i, now) - Spent(d) as real
    {
      OwnCheck(l, calls, t, k, i + 1);
    }
    OwnCheck(l, calls, t, i, i + 1);
  }

  lemma OthersCheckSpendsNothing(l: Limits, calls: seq<Call>, t: Tenant, i: nat)
    requires i < |calls| && calls[i].tenant != t && Ledger(l, calls, t, i)
    ensures Ledger(l, calls, t, i + 1)
  {
    if t in After(l, calls, i) {
      var until := After(l, calls, i)[t].lastRefill;
      forall k | 0 <= k < i && calls[k].tenant == t
        ensures Room(l, calls, k, i + 1, until) == Room(l, calls, k, i, until)
      {
      }
    }
  }

  lemma LedgerStep(l: Limits, calls: seq<Call>, t: Tenant, i: nat)
    requires l.rpm >= 0.0 && Ordered(calls) && i < |calls| && Ledger(l, calls, t, i)
    ensures Ledger(l, calls, t, i + 1)
  {
    if calls[i].tenant == t {
      LedgerGivesLevel(l, calls, i);
      OwnCheckSpends(l, calls, i);
    } else {
      OthersCheckSpendsNothing(l, calls, t, i);
    }
  }

  lemma {:induction false} LedgerIsKept(l: Limits, calls: seq<Call>, t: Tenant, j: nat)
    requires l.rpm >= 0.0 && Ordered(calls) && j <= |calls|
    ensures Ledger(l, calls, t, j)
  {
    if j > 0 {
      LedgerIsKept(l, calls, t, j - 1);
      LedgerStep(l, calls, t, j - 1);
    }
  }

  /** One more admission would not take the window from `k` to `i` over a full bucket and what is
      refilled in it. */
  predicate HasRoom(l: Limits, calls: seq<Call>, k: nat, i: nat)
    requires k <= i < |calls|
  {
    (Admissions(l, calls, calls[i].tenant, k, i) + 1) as real <= l.burst + (calls[i].at - calls[k].at) * l.rpm / 60.0
  }

  lemma RoomForOne(l: Limits, calls: seq<Call>, k: nat, i: nat)
    requires k <= i < |calls| && calls[k].tenant == calls[i].tenant
    ensures HasRoom(l, calls, k, i) <==> Room(l, calls, k, i, calls[i].at) >= 1.0
  {
    OneLess(Admissions(l, calls, calls[i].tenant, k, i), l.burst, Gain(l, calls[i].at - calls[k].at));
  }

  lemma OneLess(n: nat, burst: real, gained: real)
    ensures (n + 1) as real <= burst + gained <==> burst + gained - n as real >= 1.0
  {
  }

  lemma LevelDecides(l: Limits, calls: seq<Call>, i: nat)
    requires i < |calls|
    ensures Outcome(l, calls, i).Ok? <==> LevelAt(l, calls, i) >= 1.0
  {
  }

  /** The limiter is as generous as its bounds allow: over every ordered run a check is admitted if and
      only if no window of its tenant's that ends with it would then hold more admissions than a full
      bucket and what is refilled in it. */
  lemma AdmittedExactly(l: Limits, calls: seq<Call>, i: nat)
    requires l.rpm >= 0.0 && Ordered(calls) && i < |calls|
    ensures Outcome(l, calls, i).Ok? <==>
              forall k | 0 <= k <= i && calls[k].tenant == calls[i].tenant :: HasRoom(l, calls, k, i)
  {
    LedgerIsKept(l, calls, calls[i].tenant, i);
    LedgerGivesLevel(l, calls, i);
    LevelDecides(l, calls, i);
    forall k | 0 <= k <= i && calls[k].tenant == calls[i].tenant
      ensures HasRoom(l, calls, k, i) <==> Room(l, calls, k, i, calls[i].at) >= 1.0
    {
      RoomForOne(l, calls, k, i);
    }
  }

  /** How many of the checks from `i` to `j` are the tenant's. */
  function ChecksOf(calls: seq<Call>, t: Tenant, i: nat, j: nat): nat
    requires i <= j <= |calls|
    decreases j
  {
    if i == j then 0 else ChecksOf(calls, t, i, j - 1) + (if calls[j - 1].tenant == t then 1 else 0)
  }

  lemma {:induction false} AdmissionsWithinChecks(l: Limits, calls: seq<Call>, t: Tenant, i: nat, k: nat, j: nat)
    requires i <= k <= j <= |calls|
    ensures Admissions(l, calls, t, i, j) == Admissions(l, calls, t, i, k) + Admissions(l, calls, t, k, j)
    ensures Admissions(l, calls, t, k, j) <= ChecksOf(calls, t, k, j) <= ChecksOf(calls, t, i, j)
    decreases j
  {
    if k < j {
      AdmissionsWithinChecks(l, calls, t, i, k, j - 1);
    } else if i < j {
      AdmissionsWithinChecks(l, calls, t, i, j - 1, j - 1);
    }
  }

  /** The burst is granted: as many first checks of a tenant as a full bucket has tokens are all
      admitted, whoever else is checking. */
  lemma BurstIsGranted(l: Limits, calls: seq<Call>, i: nat)
    requires l.rpm >= 0.0 && Ordered(calls) && i < |calls|
    requires (ChecksOf(calls, calls[i].tenant, 0, i) + 1) as real <= l.burst
    ensures Outcome(l, calls, i).Ok?
  {
    IdleTenantHasItsBurst(l, calls, 0, i);
  }

  /** From check `k` to check `i` is as long as a bucket takes to fill. */
  predicate Pauses(l: Limits, calls: seq<Call>, k: nat, i: nat)
    requires k < |calls| && i < |calls|
  {
    (calls[i].at - calls[k].at) * l.rpm >= l.burst * 60.0
  }

  /** And granted again to a tenant that was not checked for as long as a bucket takes to fill. */
  lemma IdleTenantHasItsBurst(l: Limits, calls: seq<Call>, s: nat, i: nat)
    requires l.rpm >= 0.0 && Ordered(calls) && s <= i < |calls|
    requires forall k | 0 <= k < s && calls[k].tenant == calls[i].tenant :: Pauses(l, calls, k, i)
    requires (ChecksOf(calls, calls[i].tenant, s, i) + 1) as real <= l.burst
    ensures Outcome(l, calls, i).Ok?
  {
    AdmittedExactly(l, calls, i);
    forall k | 0 <= k <= i && calls[k].tenant == calls[i].tenant
      ensures HasRoom(l, calls, k, i)
    {
      if k >= s {
        FewChecksHaveRoom(l, calls, s, k, i);
      } else {
        PauseLeavesRoom(l, calls, s, k, i);
      }
    }
  }

  lemma FewChecksHaveRoom(l: Limits, calls: seq<Call>, s: nat, k: nat, i: nat)
    requires l.rpm >= 0.0 && Ordered(calls) && s <= k <= i < |calls|
    requires (ChecksOf(calls, calls[i].tenant, s, i) + 1) as real <= l.burst
    ensures HasRoom(l, calls, k, i)
  {
    AdmissionsWithinChecks(l, calls, calls[i].tenant, s, k, i);
    GainIsMonotone(l, 0.0, calls[i].at - calls[k].at);
    FewFit(Admissions(l, calls, calls[i].tenant, k, i), ChecksOf(calls, calls[i].tenant, s, i), l.burst,
           Gain(l, calls[i].at - calls[k].at));
  }

  lemma FewFit(n: nat, checks: nat, burst: real, gained: real)
    requires n <= checks && (checks + 1) as real <= burst && gained >= 0.0
    ensures (n + 1) as real <= burst + gained
  {
  }

  lemma PauseLeavesRoom(l: Limits, calls: seq<Call>, s: nat, k: nat, i: nat)
    requires l.rpm >= 0.0 && Ordered(calls) && k < s <= i < |calls| && calls[k].tenant == calls[i].tenant
    requires forall j | 0 <= j < s && calls[j].tenant == calls[i].tenant :: Pauses(l, calls, j, i)
    requires (ChecksOf(calls, calls[i].tenant, s, i) + 1) as real <= l.burst
    ensures HasRoom(l, calls, k, i)
  {
    var t := calls[i].tenant;
    AdmissionsWithinChecks(l, calls, t, k, s, i);
    WindowLeavesRoom(l, calls, t, k, s, i);
  }

  lemma {:induction false} RefilledByOwnCheck(l: Limits, calls: seq<Call>, t: Tenant, j: nat)
    requires j <= |calls|
    ensures t in After(l, calls, j) ==>
              exists p :: 0 <= p < j && calls[p].tenant == t && After(l, calls, j)[t].lastRefill == calls[p].at
  {
    if j > 0 {
      RefilledByOwnCheck(l, calls, t, j - 1);
      assert calls[j - 1].tenant != t ==>
               t in After(l, calls, j) ==> t in After(l, calls, j - 1) && After(l, calls, j)[t] == After(l, calls, j - 1)[t];
    }
  }

  /** What a window admits comes out of a full bucket and what is refilled up to its last check. */
  lemma WindowUpToCheck(l: Limits, calls: seq<Call>, t: Tenant, k: nat, s: nat) returns (p: nat)
    requires l.rpm >= 0.0 && l.burst >= 0.0 && Ordered(calls) && k < s < |calls| && calls[k].tenant == t
    ensures p < s && calls[p].tenant == t
    ensures Admissions(l, calls, t, k, s) as real <= l.burst + Gain(l, calls[p].at - calls[k].at)
  {
    LedgerIsKept(l, calls, t, s);
    RefilledByOwnCheck(l, calls, t, s);
    BucketsAreCurrent(l, calls, s, t);
    p :| 0 <= p < s && calls[p].tenant == t && After(l, calls, s)[t].lastRefill == calls[p].at;
    assert After(l, calls, s)[t].tokens <= Room(l, calls, k, s, calls[p].at);
  }

  /** A window that ends before a pause as long as it takes to fill a bucket has that bucket to spare
      after it. */
  lemma WindowLeavesRoom(l: Limits, calls: seq<Call>, t: Tenant, k: nat, s: nat, i: nat)
    requires l.rpm >= 0.0 && l.burst >= 0.0 && Ordered(calls) && k < s <= i < |calls| && calls[k].tenant == t
    requires forall j | 0 <= j < s && calls[j].tenant == t :: Pauses(l, calls, j, i)
    ensures Admissions(l, calls, t, k, s) as real <= Gain(l, calls[i].at - calls[k].at)
  {
    var p := WindowUpToCheck(l, calls, t, k, s);
    PauseRefills(l, calls, p, i);
    GainAdds(l, calls[p].at - calls[k].at, calls[i].at - calls[p].at);
    assert calls[p].at - calls[k].at + (calls[i].at - calls[p].at) == calls[i].at - calls[k].at;
  }

  lemma GainAdds(l: Limits, x: real, y: real)
    ensures Gain(l, x + y) == Gain(l, x) + Gain(l, y)
  {
    assert (x + y) * l.rpm == x * l.rpm + y * l.rpm;
  }

  lemma PauseRefills(l: Limits, calls: seq<Call>, p: nat, i: nat)
    requires p < |calls| && i < |calls| && Pauses(l, calls, p, i)
    ensures Gain(l, calls[i].at - calls[p].at) >= l.burst
  {
  }

  /** Refilling in two steps is refilling once. */
  lemma SplitRefill(l: Limits, b: Bucket, t1: real, t2: real)
    requires l.rpm >= 0.0 && b.lastRefill <= t1 <= t2
    ensures Refill(l, Refill(l, b, t1), t2) == Refill(l, b, t2)
  {
    GainIsMonotone(l, t1 - b.lastRefill, t2 - b.lastRefill);
    GainIsMonotone(l, 0.0, t2 - t1);
  }

  // ---------- isolation ----------

  /** The checks of `t` among the first `j`. */
  function Own(calls: seq<Call>, t: Tenant, j: nat): seq<Call>
    requires j <= |calls|
  {
    if j == 0 then []
    else Own(calls, t, j - 1) + (if calls[j - 1].tenant == t then [calls[j - 1]] else [])
  }

  lemma {:induction false} LaterCallsDoNotMatter(l: Limits, calls: seq<Call>, more: seq<Call>, j: nat)
    requires j <= |calls|
    ensures After(l, calls + more, j) == After(l, calls, j)
  {
    if j > 0 {
      LaterCallsDoNotMatter(l, calls, more, j - 1);
    }
  }

  lemma AfterAppend(l: Limits, own: seq<Call>, c: Call)
    ensures var before := After(l, own, |own|);
            After(l, own + [c], |own| + 1) == before[c.tenant := NextBucket(l, before, c)]
  {
    LaterCallsDoNotMatter(l, own, [c], |own|);
  }

  /** Two sets of buckets hold the same for a tenant. */
  predicate Same(a: map<Tenant, Bucket>, b: map<Tenant, Bucket>, t: Tenant) {
    (t in a <==> t in b) && (t in a ==> a[t] == b[t])
  }

  lemma SameStep(l: Limits, a: map<Tenant, Bucket>, b: map<Tenant, Bucket>, t: Tenant, c: Call)
    requires Same(a, b, t)
    ensures c.tenant == t ==> NextBucket(l, a, c) == NextBucket(l, b, c)
    ensures c.tenant != t ==> Same(a[c.tenant := NextBucket(l, a, c)], b, t)
  {
  }

  /** Alone, a tenant would have the same bucket. */
  lemma {:induction false} OwnBucket(l: Limits, calls: seq<Call>, t: Tenant, j: nat)
    requires j <= |calls|
    ensures Same(After(l, calls, j), After(l, Own(calls, t, j), |Own(calls, t, j)|), t)
  {
    if j > 0 {
      var own, c := Own(calls, t, j - 1), calls[j - 1];
      OwnBucket(l, calls, t, j - 1);
      SameStep(l, After(l, calls, j - 1), After(l, own, |own|), t, c);
      if c.tenant == t {
        AfterAppend(l, own, c);
      } else {
        assert own + [] == own;
      }
    }
  }

  /** Interleaved tenants do not affect each other: every check answers as it would had its tenant
      been alone. */
  lemma TenantsAreIsolated(l: Limits, calls: seq<Call>, i: nat)
    requires i < |calls|
    ensures var own := Own(calls, calls[i].tenant, i);
            Outcome(l, calls, i) == Outcome(l, own + [calls[i]], |own|)
  {
    var own := Own(calls, calls[i].tenant, i);
    OwnBucket(l, calls, calls[i].tenant, i);
    LaterCallsDoNotMatter(l, own, [calls[i]], |own|);
  }

  // ---------- the advertised wait ----------

  lemma RefusedCheck(l: Limits, calls: seq<Call>, j: nat)
    requires 0 < j <= |calls| && calls[j - 1].tenant in After(l, calls, j - 1) && Outcome(l, calls, j - 1).Err?
    ensures var t := calls[j - 1].tenant;
            t in After(l, calls, j) && After(l, calls, j)[t] == Refill(l, After(l, calls, j - 1)[t], calls[j - 1].at)
  {
  }

  lemma RefusalRefills(l: Limits, calls: seq<Call>, j: nat, at: real)
    requires l.rpm >= 0.0 && Ordered(calls) && 0 < j <= |calls| && calls[j - 1].at <= at
    requires calls[j - 1].tenant in After(l, calls, j - 1) && Outcome(l, calls, j - 1).Err?
    ensures var t := calls[j - 1].tenant;
            t in After(l, calls, j) && Refill(l, After(l, calls, j)[t], at) == Refill(l, After(l, calls, j - 1)[t], at)
  {
    var t := calls[j - 1].tenant;
    RefusedCheck(l, calls, j);
    BucketsAreCurrent(l, calls, j - 1, t);
    SplitRefill(l, After(l, calls, j - 1)[t], calls[j - 1].at, at);
  }

  /** While every check is refused, the bucket only refills. */
  lemma {:induction false} RefusalsOnlyRefill(l: Limits, calls: seq<Call>, t: Tenant, i: nat, j: nat, at: real)
    requires l.rpm >= 0.0 && Ordered(calls) && i <= j <= |calls| && t in After(l, calls, i)
    requires forall k | i <= k < j :: calls[k].tenant == t ==> Outcome(l, calls, k).Err?
    requires forall k | 0 <= k < j :: calls[k].at <= at
    ensures t in After(l, calls, j)
    ensures Refill(l, After(l, calls, j)[t], at) == Refill(l, After(l, calls, i)[t], at)
    decreases j
  {
    if i < j {
      RefusalsOnlyRefill(l, calls, t, i, j - 1, at);
      if calls[j - 1].tenant == t {
        RefusalRefills(l, calls, j, at);
      }
    }
  }

  /** The wait for a token is a number 64 bits can hold: at any slower rate the cast saturates. */
  predicate Holds(l: Limits) {
    l.rpm > 0.0 && l.rpm * U64_MAX as real >= 60.0
  }

  /** The seconds until the token is whole. */
  function Exact(l: Limits, tokens: real): real
    requires l.rpm > 0.0
  {
    (1.0 - tokens) * 60.0 / l.rpm
  }

  lemma ExactFits(l: Limits, tokens: real)
    requires Holds(l) && 0.0 <= tokens < 1.0
    ensures 0.0 < Exact(l, tokens) <= U64_MAX as real
    ensures Gain(l, Exact(l, tokens)) == 1.0 - tokens
  {
    var x := Exact(l, tokens);
    assert x * l.rpm == (1.0 - tokens) * 60.0;
    assert x * l.rpm <= U64_MAX as real * l.rpm;
    assert x > U64_MAX as real ==> x * l.rpm > U64_MAX as real * l.rpm;
    assert x <= 0.0 ==> x * l.rpm <= 0.0;
  }

  lemma RetryAfterIsCeiling(l: Limits, tokens: real)
    requires Holds(l) && 0.0 <= tokens < 1.0
    ensures (RetryAfter(l, tokens) - 1) as real < Exact(l, tokens) <= RetryAfter(l, tokens) as real
  {
    ExactFits(l, tokens);
  }

  lemma GainIsStrict(l: Limits, x: real, y: real)
    requires l.rpm > 0.0 && x < y
    ensures Gain(l, x) < Gain(l, y)
  {
    assert (y - x) * l.rpm > 0.0;
    assert y * l.rpm == x * l.rpm + (y - x) * l.rpm;
  }

  lemma WaitFillsAToken(l: Limits, tokens: real, waited: real)
    requires Holds(l) && 0.0 <= tokens < 1.0
    ensures waited >= RetryAfter(l, tokens) as real ==> tokens + Gain(l, waited) >= 1.0
    ensures 0.0 <= waited <= (RetryAfter(l, tokens) - 1) as real ==> tokens + Gain(l, waited) < 1.0
  {
    var exact := Exact(l, tokens);
    ExactFits(l, tokens);
    RetryAfterIsCeiling(l, tokens);
    if waited >= exact {
      GainIsMonotone(l, exact, waited);
    } else {
      GainIsStrict(l, waited, exact);
      assert Gain(l, waited) < 1.0 - tokens;
    }
  }

  /** The refused check `i`, whose tenant is checked again as `j` with no admission between. */
  ghost predicate RetriedAt(l: Limits, calls: seq<Call>, i: nat, j: nat)
  {
    && i < j < |calls| && Ordered(calls)
    && calls[i].tenant == calls[j].tenant
    && forall k | i <= k < j :: calls[k].tenant == calls[i].tenant ==> Outcome(l, calls, k).Err?
  }

  lemma RetryLevel(l: Limits, calls: seq<Call>, i: nat, j: nat)
    requires l.rpm >= 0.0 && RetriedAt(l, calls, i, j)
    ensures LevelAt(l, calls, i) < 1.0 && Outcome(l, calls, i) == Err(RetryAfter(l, LevelAt(l, calls, i)))
    ensures Outcome(l, calls, j).Ok? <==>
              Min(LevelAt(l, calls, i) + Gain(l, calls[j].at - calls[i].at), l.burst) >= 1.0
  {
    RefusalsOnlyRefill(l, calls, calls[i].tenant, i + 1, j, calls[j].at);
  }

  lemma LevelIsNotNegative(l: Limits, calls: seq<Call>, i: nat)
    requires l.rpm >= 0.0 && l.burst >= 0.0 && Ordered(calls) && i < |calls|
    ensures LevelAt(l, calls, i) >= 0.0
  {
    var t := calls[i].tenant;
    if t in After(l, calls, i) {
      BucketsAreCurrent(l, calls, i, t);
      GainIsMonotone(l, 0.0, calls[i].at - After(l, calls, i)[t].lastRefill);
    }
  }

  /** The advertised wait suffices: after `Err(s)`, a check at least `s` seconds later with no
      admission between succeeds; and it is the least whole number of seconds (above the floor of
      one) that does, for a check no more than `s - 1` seconds later is refused. */
  lemma RetryAfterSuffices(l: Limits, calls: seq<Call>, i: nat, j: nat)
    requires Holds(l) && l.burst >= 1.0 && RetriedAt(l, calls, i, j)
    ensures var s := Outcome(l, calls, i).error;
            && (calls[j].at - calls[i].at >= s as real ==> Outcome(l, calls, j).Ok?)
            && (calls[j].at - calls[i].at <= (s - 1) as real ==> Outcome(l, calls, j).Err?)
  {
    RetryLevel(l, calls, i, j);
    LevelIsNotNegative(l, calls, i);
    WaitFillsAToken(l, LevelAt(l, calls, i), calls[j].at - calls[i].at);
  }

  /** The promise depends on the burst: below one token no check is ever admitted, so no wait
      suffices. `new` accepts such limits; `from_env` clamps them away. */
  lemma NothingIsAdmittedBelowOneToken(l: Limits, calls: seq<Call>, i: nat)
    requires i < |calls|
    ensures l.burst < 1.0 ==> Outcome(l, calls, i).Err?
    ensures l.burst >= 1.0 && calls[i].tenant !in After(l, calls, i) ==> Outcome(l, calls, i).Ok?
  {
    assert Gain(l, 0.0) == 0.0;
  }

  /** And on the rate: with none, a bucket once empty stays so, and the wait advertised is the
      largest number 64 bits hold. */
  lemma NoRateNoRefill(l: Limits, calls: seq<Call>, i: nat, j: nat)
    requires l.rpm == 0.0 && RetriedAt(l, calls, i, j)
    ensures Outcome(l, calls, i) == Err(U64_MAX) && Outcome(l, calls, j).Err?
  {
    RetryLevel(l, calls, i, j);
    assert Gain(l, calls[j].at - calls[i].at) == 0.0;
  }
}
