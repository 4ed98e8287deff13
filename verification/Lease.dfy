/** The queue as a concurrent protocol: any number of workers, each running at most
    one handler, interleaved with enqueues, clock ticks and crashes. Every step is one
    atomic statement of the job store. */
module Lease {
  import opened Wrappers
  import opened Jobs

  /** A handler in flight: the name its worker wrote, the row it holds, and the
      instant its lease lapses. */
  datatype Handler = Handler(worker: string, id: JobId, until: Time)

  /** `live` is keyed by runner instance, not by worker name: every process names its
      workers worker-0, worker-1, ..., so names repeat across processes. */
  datatype Sys = Sys(clock: Time, jobs: seq<Row>, live: map<nat, Handler>)

  datatype Step =
    | Tick(to: Time)
    | Enqueue(job: Row)
    | Claim(runner: nat, worker: string, id: JobId)
    | Complete(runner: nat)
    | Fail(runner: nat, err: string)
    | Crash(runner: nat)  // the handler vanishes; also a complete or fail whose write is lost

  predicate Enabled(s: Sys, step: Step) {
    match step
    case Tick(to) => s.clock <= to
    case Enqueue(job) => Fresh(job)
    case Claim(r, _, id) => r !in s.live && IsNext(s.jobs, s.clock, id)
    case Complete(r) => r in s.live && s.live[r].id < |s.jobs|
    case Fail(r, _) => r in s.live && s.live[r].id < |s.jobs|
    case Crash(r) => r in s.live
  }

  /** Neither Complete nor Fail asks whether the caller still owns the row. */
  function Apply(s: Sys, step: Step): Sys
    requires Enabled(s, step)
  {
    match step
    case Tick(to) => s.(clock := to)
    case Enqueue(job) => s.(jobs := s.jobs + [job])
    case Claim(r, worker, id) =>
      var until := s.clock + LEASE;
      s.(jobs := s.jobs[id := ClaimedRow(s.jobs[id], worker, until)],
         live := s.live[r := Handler(worker, id, until)])
    case Complete(r) =>
      var id := s.live[r].id;
      s.(jobs := s.jobs[id := CompletedRow(s.jobs[id])], live := s.live - {r})
    case Fail(r, err) =>
      var id := s.live[r].id;
      s.(jobs := s.jobs[id := RetriedRow(s.jobs[id], err, s.clock + RETRY_DELAY)], live := s.live - {r})
    case Crash(r) => s.(live := s.live - {r})
  }

  predicate Init(s: Sys) {
    s.jobs == [] && s.live == map[]
  }

  /** A run: consecutive states joined by enabled steps. */
  ghost predicate IsPath(states: seq<Sys>, steps: seq<Step>) {
    && |states| == |steps| + 1
    && forall i {:trigger steps[i]} | 0 <= i < |steps| ::
         Enabled(states[i], steps[i]) && states[i + 1] == Apply(states[i], steps[i])
  }

  ghost predicate IsRun(states: seq<Sys>, steps: seq<Step>) {
    IsPath(states, steps) && Init(states[0])
  }

  lemma RunPrefix(states: seq<Sys>, steps: seq<Step>, n: nat)
    requires IsPath(states, steps) && n < |steps|
    ensures IsPath(states[..n + 1], steps[..n]) && states[..n + 1][n] == states[n] && states[..n + 1][0] == states[0]
    ensures Enabled(states[n], steps[n]) && states[n + 1] == Apply(states[n], steps[n])
  {
    assert steps[n] == steps[n];
    assert forall i | 0 <= i < n :: steps[..n][i] == steps[i];
  }

  /** The assumption the lease length is chosen for: a handler ends, or its worker
      dies, before the lease lapses. */
  predicate LeaseRespected(s: Sys) {
    forall r | r in s.live :: s.clock <= s.live[r].until
  }

  /** An undisturbed turn of the worker loop is a claim, a wait and an ending: the row it
      leaves is the one these steps leave, and the runner is idle again. */
  lemma TurnIsThreeSteps(s: Sys, runner: nat, worker: string, id: JobId, error: Option<string>, endedAt: Time)
    requires runner !in s.live && IsNext(s.jobs, s.clock, id) && s.clock <= endedAt
    ensures var claim := Claim(runner, worker, id);
            var finish := if error.Some? then Fail(runner, error.value) else Complete(runner);
            && Enabled(s, claim)
            && Enabled(Apply(s, claim), Tick(endedAt))
            && Enabled(Apply(Apply(s, claim), Tick(endedAt)), finish)
            && var t := Apply(Apply(Apply(s, claim), Tick(endedAt)), finish);
               t == Sys(endedAt, s.jobs[id := TurnRow(s.jobs[id], worker, s.clock, error, endedAt)], s.live)
  {
    var s1 := Apply(s, Claim(runner, worker, id));
    assert s1.live - {runner} == s.live;
  }

  // ---------- what the lease assumption buys ----------

  /** At most one live handler holds a job. */
  predicate MutualExclusion(s: Sys) {
    forall r, q | r in s.live && q in s.live && s.live[r].id == s.live[q].id :: r == q
  }

  /** Each live handler is the one its row names, with the same lease. */
  predicate ClaimsMatchRows(s: Sys) {
    forall r | r in s.live ::
      && s.live[r].id < |s.jobs|
      && var row := s.jobs[s.live[r].id];
         row.state == Running && row.lockedBy == Some(s.live[r].worker) && row.lockedUntil == Some(s.live[r].until)
  }

  predicate Terminal(r: Row) {
    r.state == Done || r.state == Dead
  }

  /** One step under the lease assumption keeps exclusion and the match, and never
      touches a finished row. */
  lemma StepSafety(s: Sys, step: Step)
    requires Enabled(s, step) && LeaseRespected(s)
    requires MutualExclusion(s) && ClaimsMatchRows(s)
    ensures MutualExclusion(Apply(s, step)) && ClaimsMatchRows(Apply(s, step))
    ensures forall id | 0 <= id < |s.jobs| && Terminal(s.jobs[id]) :: Apply(s, step).jobs[id] == s.jobs[id]
  {
    var t := Apply(s, step);
    forall r | r in t.live && r in s.live
      ensures t.live[r] == s.live[r] && t.jobs[t.live[r].id] == s.jobs[s.live[r].id]
    {
    }
  }

  /** Lease safety over every interleaving: if no live handler outlasts its lease, then in
      every state at most one live handler holds a job, every live claim matches its row's
      lock columns, and rows that reached done or dead never change again. */
  lemma {:induction false} LeaseSafety(states: seq<Sys>, steps: seq<Step>, i: nat, j: nat)
    requires IsRun(states, steps) && i <= j < |states|
    requires forall k | 0 <= k < |states| :: LeaseRespected(states[k])
    ensures MutualExclusion(states[j]) && ClaimsMatchRows(states[j])
    ensures |states[i].jobs| <= |states[j].jobs|
    ensures forall id | 0 <= id < |states[i].jobs| && Terminal(states[i].jobs[id]) ::
              states[j].jobs[id] == states[i].jobs[id]
    decreases j
  {
    if j > 0 {
      LeaseSafety(states, steps, if i < j then i else j - 1, j - 1);
      assert states[j] == Apply(states[j - 1], steps[j - 1]);
      StepSafety(states[j - 1], steps[j - 1]);
    }
  }

  /** While a handler is live and within its lease, nobody else changes its row: the row it
      finally writes is the row it claimed. */
  lemma {:induction false} OwnedRowIsStable(states: seq<Sys>, steps: seq<Step>, i: nat, j: nat, r: nat)
    requires IsRun(states, steps) && i <= j < |states|
    requires forall k | 0 <= k < |states| :: LeaseRespected(states[k])
    requires r in states[i].live
    requires forall k | i <= k <= j :: r in states[k].live && states[k].live[r] == states[i].live[r]
    ensures states[i].live[r].id < |states[i].jobs| <= |states[j].jobs|
    ensures states[j].jobs[states[i].live[r].id] == states[i].jobs[states[i].live[r].id]
    decreases j
  {
    LeaseSafety(states, steps, i, i);
    if i < j {
      OwnedRowIsStable(states, steps, i, j - 1, r);
      LeaseSafety(states, steps, j - 1, j - 1);
      assert states[j] == Apply(states[j - 1], steps[j - 1]);
    }
  }

  /** Without the assumption `done` is not absorbing: a handler outlives its lease, a second
      worker reclaims the job, the first completes it, and the second's failure re-queues it. */
  lemma DoneIsNotAbsorbingWithoutLeases(job: Row) returns (states: seq<Sys>, steps: seq<Step>)
    requires Fresh(job) && job.maxAttempts == 5 && job.nextRunAt == 0
    ensures IsRun(states, steps) && |states| == 7 && |states[5].jobs| == 1 == |states[6].jobs|
    ensures states[5].jobs[0].state == Done && states[6].jobs[0].state == Queued
  {
    var s0 := Sys(0, [], map[]);
    var s1 := Apply(s0, Enqueue(job));
    var s2 := Apply(s1, Claim(0, "worker-0", 0));
    var s3 := Apply(s2, Tick(LEASE + 1));
    var s4 := Apply(s3, Claim(1, "worker-0", 0));
    var s5 := Apply(s4, Complete(0));
    var s6 := Apply(s5, Fail(1, "late"));
    states := [s0, s1, s2, s3, s4, s5, s6];
    steps := [Enqueue(job), Claim(0, "worker-0", 0), Tick(LEASE + 1), Claim(1, "worker-0", 0), Complete(0), Fail(1, "late")];
  }

  // ---------- what holds with no assumption at all ----------

  predicate RowOk(r: Row) {
    && r.state != Failed
    && (r.state == Queued ==> r.lockedBy.None? && r.lockedUntil.None? && r.attempt < r.maxAttempts)
    && (r.state == Running ==> r.lockedBy.Some? && r.lockedUntil.Some? && 0 < r.attempt)
    && (r.state == Dead ==> r.attempt >= r.maxAttempts)
  }

  /** How many of the steps claim row `id`. */
  function Claims(steps: seq<Step>, id: JobId): nat {
    if steps == [] then 0
    else Claims(steps[..|steps| - 1], id)
         + (if steps[|steps| - 1].Claim? && steps[|steps| - 1].id == id then 1 else 0)
  }

  /** How many of those claims took the row from a lapsed lease. */
  function Reclaims(states: seq<Sys>, steps: seq<Step>, id: JobId): nat
    requires |states| > |steps|
  {
    if steps == [] then 0
    else var n := |steps| - 1;
         Reclaims(states[..n + 1], steps[..n], id)
         + (if steps[n].Claim? && steps[n].id == id && id < |states[n].jobs| && states[n].jobs[id].state == Running
            then 1 else 0)
  }

  /** Every handler has a row. */
  predicate Anchored(s: Sys) {
    forall r | r in s.live :: s.live[r].id < |s.jobs|
  }

  lemma StaysAnchored(s: Sys, step: Step)
    requires Enabled(s, step) && Anchored(s)
    ensures Anchored(Apply(s, step))
  {
  }

  /** The account of one row: `attempt` is the number of claims, and goes over the cap by no more
      than the reclaims. A row that does not exist yet was never claimed. */
  predicate Accounted(s: Sys, id: JobId, claims: nat, reclaims: nat) {
    if id < |s.jobs| then
      && RowOk(s.jobs[id])
      && s.jobs[id].attempt == claims
      && s.jobs[id].attempt <= s.jobs[id].maxAttempts + reclaims
    else claims == 0
  }

  lemma StepAccounts(s: Sys, step: Step, id: JobId, claims: nat, reclaims: nat)
    requires Enabled(s, step) && Anchored(s) && Accounted(s, id, claims, reclaims)
    ensures var claimed := step.Claim? && step.id == id;
            Accounted(Apply(s, step), id, if claimed then claims + 1 else claims,
                      if claimed && id < |s.jobs| && s.jobs[id].state == Running then reclaims + 1 else reclaims)
  {
  }

  /** Every run, leases respected or not: rows are well formed, `attempt` counts the claims of
      the row and exceeds `max_attempts` by at most the number of lease-expiry reclaims. */
  lemma {:induction false} AttemptAccounting(states: seq<Sys>, steps: seq<Step>)
    requires IsRun(states, steps)
    ensures Anchored(states[|steps|])
    ensures forall id: JobId :: Accounted(states[|steps|], id, Claims(steps, id), Reclaims(states, steps, id))
    decreases |steps|
  {
    if steps != [] {
      var n := |steps| - 1;
      RunPrefix(states, steps, n);
      AttemptAccounting(states[..n + 1], steps[..n]);
      StaysAnchored(states[n], steps[n]);
      forall id: JobId
        ensures Accounted(states[n + 1], id, Claims(steps, id), Reclaims(states, steps, id))
      {
        StepAccounts(states[n], steps[n], id, Claims(steps[..n], id), Reclaims(states[..n + 1], steps[..n], id));
      }
    }
  }

  /** No job is ever lost, and a job's identity (kind, target, attempt cap) never changes. */
  lemma {:induction false} NoJobIsLost(states: seq<Sys>, steps: seq<Step>, i: nat, j: nat)
    requires IsPath(states, steps) && i <= j < |states|
    ensures |states[i].jobs| <= |states[j].jobs|
    ensures forall id | 0 <= id < |states[i].jobs| ::
              && states[j].jobs[id].kind == states[i].jobs[id].kind
              && states[j].jobs[id].target == states[i].jobs[id].target
              && states[j].jobs[id].maxAttempts == states[i].jobs[id].maxAttempts
    decreases j
  {
    if i < j {
      NoJobIsLost(states, steps, i, j - 1);
      assert states[j] == Apply(states[j - 1], steps[j - 1]);
    }
  }

  /** The instant an unfinished row becomes due. */
  function WakeTime(r: Row): Time
    requires RowOk(r) && !Terminal(r)
  {
    if r.state == Queued then r.nextRunAt else r.lockedUntil.value + 1
  }

  /** Left alone, an unfinished job is claimable exactly from its wake time on, and a
      finished one never is. */
  lemma ClaimableFromWakeTime(r: Row, now: Time)
    requires RowOk(r)
    ensures Claimable(r, now) <==> !Terminal(r) && WakeTime(r) <= now
  {
  }

  /** A worker may die at any time: its job is left as it is, and anyone may take it from the moment the
      lease has lapsed. */
  lemma CrashLosesNoJob(s: Sys, r: nat)
    requires ClaimsMatchRows(s) && r in s.live
    ensures Enabled(s, Crash(r))
    ensures var t := Apply(s, Crash(r));
            && t.jobs == s.jobs && t.live == s.live - {r} && t.clock == s.clock
            && forall now :: Claimable(t.jobs[s.live[r].id], now) <==> now > s.live[r].until
  {
  }

  // ---------- crash-free runs ----------

  ghost predicate Held(s: Sys, id: JobId) {
    exists r :: r in s.live && s.live[r].id == id
  }

  predicate WithinCap(r: Row) {
    RowOk(r) && r.attempt <= r.maxAttempts
  }

  /** The state of a crash-free system: every running row is held by a live handler,
      and no row is over its attempt cap. */
  ghost predicate Attended(s: Sys) {
    && MutualExclusion(s) && ClaimsMatchRows(s)
    && (forall id | 0 <= id < |s.jobs| :: WithinCap(s.jobs[id]))
    && (forall id | 0 <= id < |s.jobs| && s.jobs[id].state == Running :: Held(s, id))
  }

  /** With every running row attended, a claim can only take a queued row. */
  lemma ClaimsAreFirstHand(s: Sys, step: Step)
    requires Attended(s) && LeaseRespected(s) && step.Claim? && Enabled(s, step)
    ensures s.jobs[step.id].state == Queued
  {
    assert s.jobs[step.id].state == Running ==> Held(s, step.id);
  }

  lemma RowsStayWithinCap(s: Sys, step: Step)
    requires Attended(s) && LeaseRespected(s) && Enabled(s, step)
    ensures forall k | 0 <= k < |Apply(s, step).jobs| :: WithinCap(Apply(s, step).jobs[k])
  {
    if step.Claim? {
      ClaimsAreFirstHand(s, step);
    }
    var t := Apply(s, step);
    forall k | 0 <= k < |t.jobs|
      ensures WithinCap(t.jobs[k])
    {
      assert k < |s.jobs| ==> WithinCap(s.jobs[k]);
    }
  }

  lemma StaysAttended(s: Sys, step: Step)
    requires Attended(s) && LeaseRespected(s) && Enabled(s, step) && !step.Crash?
    ensures Attended(Apply(s, step))
  {
    StepSafety(s, step);
    RowsStayWithinCap(s, step);
    var t := Apply(s, step);
    forall k | 0 <= k < |t.jobs| && t.jobs[k].state == Running
      ensures Held(t, k)
    {
      if step.Claim? && k == step.id {
        assert t.live[step.runner].id == k;
      } else {
        assert Held(s, k);
        var r :| r in s.live && s.live[r].id == k;
        assert r in t.live && t.live[r].id == k;
      }
    }
  }

  /** Every crash-free run within the leases is attended throughout. */
  lemma {:induction false} CrashFreeRunsAreAttended(states: seq<Sys>, steps: seq<Step>, j: nat)
    requires IsRun(states, steps) && j < |states|
    requires forall k | 0 <= k < |states| :: LeaseRespected(states[k])
    requires forall k | 0 <= k < |steps| :: !steps[k].Crash?
    ensures Attended(states[j])
  {
    if j > 0 {
      CrashFreeRunsAreAttended(states, steps, j - 1);
      assert states[j] == Apply(states[j - 1], steps[j - 1]);
      StaysAttended(states[j - 1], steps[j - 1]);
    }
  }

  // ---------- the queue drains ----------

  /** What holds in every state of a run within the leases, whatever crashes. */
  predicate Regular(s: Sys) {
    && MutualExclusion(s) && ClaimsMatchRows(s)
    && forall id | 0 <= id < |s.jobs| :: RowOk(s.jobs[id])
  }

  lemma StaysRegular(s: Sys, step: Step)
    requires Regular(s) && LeaseRespected(s) && Enabled(s, step)
    ensures Regular(Apply(s, step))
  {
    StepSafety(s, step);
    var t := Apply(s, step);
    forall id | 0 <= id < |t.jobs|
      ensures RowOk(t.jobs[id])
    {
      assert id < |s.jobs| ==> RowOk(s.jobs[id]);
    }
  }

  lemma {:induction false} RunsAreRegular(states: seq<Sys>, steps: seq<Step>, j: nat)
    requires IsRun(states, steps) && j < |states|
    requires forall k | 0 <= k < |states| :: LeaseRespected(states[k])
    ensures Regular(states[j])
  {
    if j > 0 {
      RunsAreRegular(states, steps, j - 1);
      assert states[j] == Apply(states[j - 1], steps[j - 1]);
      StaysRegular(states[j - 1], steps[j - 1]);
    }
  }

  function AttemptsLeft(r: Row): nat {
    if r.attempt < r.maxAttempts then r.maxAttempts - r.attempt else 0
  }

  /** Work left in a row: two units per remaining attempt, one more while it runs, and another if
      its last attempt is orphaned, for that is claimed over the cap. */
  function Weight(r: Row, held: bool): nat {
    match r.state
    case Queued => 2 * AttemptsLeft(r)
    case Running => 2 * AttemptsLeft(r) + (if held || AttemptsLeft(r) > 0 then 1 else 2)
    case _ => 0
  }

  /** The rows that live handlers hold. */
  function HeldRows(s: Sys): set<JobId> {
    set r | r in s.live :: s.live[r].id
  }

  function Measure(jobs: seq<Row>, held: set<JobId>): nat {
    if jobs == [] then 0
    else var n := |jobs| - 1; Measure(jobs[..n], held) + Weight(jobs[n], n in held)
  }

  function WorkLeft(s: Sys): nat {
    Measure(s.jobs, HeldRows(s))
  }

  lemma {:induction false} MeasureFrame(jobs: seq<Row>, held: set<JobId>, after: set<JobId>)
    requires forall k | 0 <= k < |jobs| :: k in held <==> k in after
    ensures Measure(jobs, after) == Measure(jobs, held)
  {
    if jobs != [] {
      MeasureFrame(jobs[..|jobs| - 1], held, after);
    }
  }

  lemma {:induction false} MeasureUpdate(jobs: seq<Row>, held: set<JobId>, id: JobId, r: Row, after: set<JobId>)
    requires id < |jobs| && forall k | 0 <= k < |jobs| && k != id :: k in held <==> k in after
    ensures Measure(jobs[id := r], after) + Weight(jobs[id], id in held) == Measure(jobs, held) + Weight(r, id in after)
    decreases |jobs|
  {
    var n := |jobs| - 1;
    if id < n {
      MeasureUpdate(jobs[..n], held, id, r, after);
      assert jobs[id := r][..n] == jobs[..n][id := r];
    } else {
      MeasureFrame(jobs[..n], held, after);
      assert jobs[id := r][..n] == jobs[..n];
    }
  }

  predicate Work(step: Step) {
    step.Claim? || step.Complete? || step.Fail?
  }

  /** The row a piece of work writes. */
  function Touched(s: Sys, step: Step): JobId
    requires Work(step) && Enabled(s, step)
  {
    if step.Claim? then step.id else s.live[step.runner].id
  }

  /** Within the leases a claim takes a row nobody holds: a queued or an orphaned one. */
  lemma ClaimsTakeUnheld(s: Sys, step: Step)
    requires Regular(s) && LeaseRespected(s) && step.Claim? && Enabled(s, step)
    ensures step.id !in HeldRows(s)
  {
  }

  lemma HeldAfter(s: Sys, step: Step)
    requires Regular(s) && Enabled(s, step) && Work(step)
    ensures HeldRows(Apply(s, step)) == if step.Claim? then HeldRows(s) + {step.id} else HeldRows(s) - {Touched(s, step)}
  {
    var t := Apply(s, step);
    forall r | r in s.live && (step.Claim? || r != step.runner)
      ensures r in t.live && t.live[r] == s.live[r]
    {
    }
    if step.Claim? {
      assert t.live[step.runner].id == step.id;
    }
  }

  /** A step within the leases, other than a crash or a new job, takes at least one unit off the work
      left if it is a piece of work, and adds none if it is not. */
  lemma WorkFalls(s: Sys, step: Step)
    requires Regular(s) && LeaseRespected(s) && Enabled(s, step) && !step.Crash? && !step.Enqueue?
    ensures Regular(Apply(s, step))
    ensures WorkLeft(Apply(s, step)) + (if Work(step) then 1 else 0) <= WorkLeft(s)
  {
    StaysRegular(s, step);
    if Work(step) {
      var id := Touched(s, step);
      var row, held, after := Apply(s, step).jobs[id], HeldRows(s), HeldRows(Apply(s, step));
      HeldAfter(s, step);
      if step.Claim? {
        ClaimsTakeUnheld(s, step);
      } else {
        assert s.jobs[id].state == Running && id in held;
      }
      assert RowOk(s.jobs[id]);
      assert Weight(row, id in after) + 1 <= Weight(s.jobs[id], id in held);
      MeasureUpdate(s.jobs, held, id, row, after);
    }
  }

  function WorkCount(steps: seq<Step>): nat {
    if steps == [] then 0 else WorkCount(steps[..|steps| - 1]) + (if Work(steps[|steps| - 1]) then 1 else 0)
  }

  /** Whatever the schedule, a stretch without crashes and new jobs does at most as many pieces of
      work as are left at its start: at most twice the attempts the jobs have left, plus one per
      running job and another per orphan of a last attempt. */
  lemma {:induction false} WorkIsBounded(states: seq<Sys>, steps: seq<Step>)
    requires IsPath(states, steps) && Regular(states[0])
    requires forall k | 0 <= k < |states| :: LeaseRespected(states[k])
    requires forall k | 0 <= k < |steps| :: !steps[k].Crash? && !steps[k].Enqueue?
    ensures Regular(states[|steps|])
    ensures WorkCount(steps) + WorkLeft(states[|steps|]) <= WorkLeft(states[0])
    decreases |steps|
  {
    if steps != [] {
      var n := |steps| - 1;
      RunPrefix(states, steps, n);
      WorkIsBounded(states[..n + 1], steps[..n]);
      WorkFalls(states[n], steps[n]);
    }
  }

  /** No work is left exactly when every job is finished. */
  lemma {:induction false} NoWorkLeft(jobs: seq<Row>, held: set<JobId>)
    requires forall id | 0 <= id < |jobs| :: RowOk(jobs[id])
    ensures Measure(jobs, held) == 0 <==> forall id | 0 <= id < |jobs| :: Terminal(jobs[id])
    decreases |jobs|
  {
    if jobs != [] {
      var n := |jobs| - 1;
      NoWorkLeft(jobs[..n], held);
      assert forall id | 0 <= id < n :: jobs[..n][id] == jobs[id];
      assert RowOk(jobs[n]);
    }
  }

  /** No schedule gets stuck, whatever has crashed: while a job is unfinished, some live handler can
      end, or some job can be claimed, after waiting if need be until it is due or, orphaned, until
      its lease has lapsed. */
  lemma WorkIsAlwaysPossible(s: Sys, runner: nat) returns (wait: Time, step: Step)
    requires Regular(s) && LeaseRespected(s) && runner !in s.live
    requires exists id :: 0 <= id < |s.jobs| && !Terminal(s.jobs[id])
    ensures Enabled(s, Tick(wait)) && LeaseRespected(s.(clock := wait))
    ensures Work(step) && Enabled(s.(clock := wait), step)
    ensures LeaseRespected(Apply(s.(clock := wait), step))
    ensures step.Claim? ==> step.runner == runner
  {
    if r :| r in s.live {
      wait, step := s.clock, Complete(r);
    } else {
      var id :| 0 <= id < |s.jobs| && !Terminal(s.jobs[id]);
      var due := WakeTime(s.jobs[id]);
      wait := if due <= s.clock then s.clock else due;
      ClaimableFromWakeTime(s.jobs[id], wait);
      var next := NextExists(s.jobs, wait, id);
      step := Claim(runner, "worker-0", next);
    }
  }

  /** A crash-free schedule within the leases, free of new jobs, that ends with every job
      finished. */
  ghost predicate Drains(states: seq<Sys>, steps: seq<Step>) {
    && IsPath(states, steps)
    && (forall k | 0 <= k < |states| :: LeaseRespected(states[k]))
    && (forall k | 0 <= k < |steps| :: !steps[k].Crash? && !steps[k].Enqueue?)
    && (forall id | 0 <= id < |states[|steps|].jobs| :: Terminal(states[|steps|].jobs[id]))
  }

  lemma Prepend(s: Sys, step: Step, states: seq<Sys>, steps: seq<Step>)
    requires Drains(states, steps) && Enabled(s, step) && Apply(s, step) == states[0]
    requires LeaseRespected(s) && !step.Crash? && !step.Enqueue?
    ensures Drains([s] + states, [step] + steps)
  {
    var ts, ps := [s] + states, [step] + steps;
    forall i | 0 <= i < |ps|
      ensures Enabled(ts[i], ps[i]) && ts[i + 1] == Apply(ts[i], ps[i])
    {
      if i > 0 {
        assert ps[i] == steps[i - 1];
      }
    }
  }

  /** From every state of a run within the leases, orphaned rows and all, some such schedule exists;
      `n` is any bound on the runner instances now busy. */
  lemma {:induction false} QueueDrains(s: Sys, n: nat) returns (states: seq<Sys>, steps: seq<Step>)
    requires Regular(s) && LeaseRespected(s) && forall r | r in s.live :: r < n
    ensures Drains(states, steps) && states[0] == s
    decreases WorkLeft(s)
  {
    if forall id | 0 <= id < |s.jobs| :: Terminal(s.jobs[id]) {
      states, steps := [s], [];
    } else {
      var wait, step := WorkIsAlwaysPossible(s, n);
      var s1 := Apply(s, Tick(wait));
      var s2 := Apply(s1, step);
      WorkFalls(s, Tick(wait));
      WorkFalls(s1, step);
      assert forall r | r in s2.live :: r < n + 1;
      var rest, more := QueueDrains(s2, n + 1);
      Prepend(s1, step, rest, more);
      Prepend(s, Tick(wait), [s1] + rest, [step] + more);
      states, steps := [s] + ([s1] + rest), [Tick(wait)] + ([step] + more);
    }
  }
}
