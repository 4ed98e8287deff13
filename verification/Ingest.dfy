/** The resumable ingest of one source: statuses written phase by phase, a fault anywhere, and
    what the next run makes of what the fault left. */
module Ingest {
  import opened Wrappers
  import opened Seqs

  datatype Status =
    | Pending | Extracting | Extracted | Classifying | Classified | AgentDistilling | AgentDistilled
    | Validating | Validated | Committing | Committed | Embedding | Done | Tainted | Failed | Dead

  /** What a run finds: the kind of source and which services are configured. */
  datatype Env = Env(isArchive: bool, handlesMime: bool, hasLlm: bool, hasEmbedder: bool)

  /** The statuses one step writes, in order, and whether it ends the run. */
  datatype Phase = Phase(writes: seq<Status>, stop: bool)

  function PhaseOf(env: Env, status: Status): Phase {
    match status
    case Pending | Extracting | Failed =>
      if env.isArchive then Phase([Extracting, Done], false)
      else Phase([Extracting, if env.handlesMime then Extracted else Tainted], false)
    case Extracted | Classifying =>
      if env.hasLlm then Phase([Classifying, Classified], false) else Phase([Tainted], true)
    case Classified | AgentDistilling =>
      if env.hasLlm then Phase([AgentDistilling, Committed], false) else Phase([Tainted], true)
    case Committed | Embedding =>
      if env.hasEmbedder then Phase([Embedding, Done], false) else Phase([Done], false)
    case _ => Phase([], true)
  }

  /** A step may fail before or between its writes, or after the last one; it has then made the
      given number of them. */
  type Fault = Option<nat>

  predicate Strikes(fault: Fault, writes: seq<Status>) {
    fault.Some? && fault.value <= |writes|
  }

  /** The status once a step has run, or has run up to its fault. */
  function Reached(status: Status, writes: seq<Status>, fault: Fault): Status {
    var n := if Strikes(fault, writes) then fault.value else |writes|;
    if n == 0 then status else writes[n - 1]
  }

  /** What one step comes to: the status left, whether it succeeded, whether the run goes on. */
  datatype Stepped = Stepped(status: Status, ok: bool, again: bool)

  function StepOnce(env: Env, status: Status, fault: Fault): Stepped {
    var phase := PhaseOf(env, status);
    var after := Reached(status, phase.writes, fault);
    var ok := !Strikes(fault, phase.writes);
    Stepped(after, ok, ok && !phase.stop && after != status)
  }

  /** The writes a step makes before its fault, if it has one. */
  function Made(writes: seq<Status>, fault: Fault): seq<Status> {
    if Strikes(fault, writes) then writes[..fault.value] else writes
  }

  datatype Outcome = Outcome(status: Status, ok: bool)

  /** A run, step after step from the `i`-th on, each with its own fault or none. */
  function RunFrom(env: Env, faults: nat -> Fault, i: nat, status: Status): Outcome
    decreases MAX_RANK - Rank(status)
  {
    var step := StepOnce(env, status, faults(i));
    if step.again then
      StepAdvances(env, status);
      RunFrom(env, faults, i + 1, step.status)
    else Outcome(step.status, step.ok)
  }

  /** The statuses it writes, in order. */
  function Trail(env: Env, faults: nat -> Fault, i: nat, status: Status): seq<Status>
    decreases MAX_RANK - Rank(status)
  {
    var made, step := Made(PhaseOf(env, status).writes, faults(i)), StepOnce(env, status, faults(i));
    if step.again then
      StepAdvances(env, status);
      made + Trail(env, faults, i + 1, step.status)
    else made
  }

  lemma TrailStep(env: Env, faults: nat -> Fault, i: nat, status: Status, before: seq<Status>)
    ensures var made, step := Made(PhaseOf(env, status).writes, faults(i)), StepOnce(env, status, faults(i));
            before + Trail(env, faults, i, status) ==
              if step.again then before + made + Trail(env, faults, i + 1, step.status) else before + made
  {
    var made, step := Made(PhaseOf(env, status).writes, faults(i)), StepOnce(env, status, faults(i));
    AppendAssociates(before, made, Trail(env, faults, i + 1, step.status));
  }

  // ---------- progress ----------

  const MAX_RANK: nat := 4

  /** How far along the pipeline a status is; a run does nothing from the last rank. */
  function Rank(status: Status): nat {
    match status
    case Pending | Extracting | Failed => 0
    case Extracted | Classifying => 1
    case Classified | AgentDistilling => 2
    case Committed | Embedding => 3
    case _ => 4
  }

  /** A step that does not fail and does not end the run strictly advances the source, so the
      test for an unchanged status never fires. */
  lemma StepAdvances(env: Env, status: Status)
    ensures PhaseOf(env, status).stop ==> forall fault :: !StepOnce(env, status, fault).again
    ensures !PhaseOf(env, status).stop ==>
              forall fault :: StepOnce(env, status, fault).again == StepOnce(env, status, fault).ok
    ensures forall fault | StepOnce(env, status, fault).again :: Rank(StepOnce(env, status, fault).status) > Rank(status)
  {
  }

  /** It takes the source to just the next stage, unless it ends there: an archive, or a file nothing
      can extract. */
  lemma OneStageAtATime(env: Env, status: Status, fault: Fault)
    requires StepOnce(env, status, fault).again
    ensures var after := StepOnce(env, status, fault).status;
            || Rank(after) == Rank(status) + 1
            || (Rank(status) == 0 &&
                  ((after == Done && env.isArchive) || (after == Tainted && !env.isArchive && !env.handlesMime)))
  {
  }

  /** A step that fails never sets the source back to an earlier stage. */
  lemma FaultsSetNothingBack(env: Env, status: Status, fault: Fault)
    ensures Rank(StepOnce(env, status, fault).status) >= Rank(status)
    ensures InUse(status) ==> InUse(StepOnce(env, status, fault).status)
  {
    WritesRise(env, status);
    assert StepOnce(env, status, fault).status != status ==>
        StepOnce(env, status, fault).status in PhaseOf(env, status).writes;
  }

  lemma WritesRise(env: Env, status: Status)
    ensures forall s | s in PhaseOf(env, status).writes :: Rank(s) >= Rank(status) && InUse(s)
  {
  }

  /** A step can be cut short before any of its writes, and after the last, and then fails. */
  lemma StepsFailAnywhere(env: Env, status: Status, n: nat)
    requires n <= |PhaseOf(env, status).writes|
    ensures exists fault :: Made(PhaseOf(env, status).writes, fault) == PhaseOf(env, status).writes[..n]
                            && !StepOnce(env, status, fault).ok
  {
    var fault: Fault := Some(n);
    assert Made(PhaseOf(env, status).writes, fault) == PhaseOf(env, status).writes[..n] && !StepOnce(env, status, fault).ok;
  }

  // ---------- the run itself ----------

  class Source {
    var status: Status
    ghost var written: seq<Status>

    constructor (initial: Status)
      ensures status == initial && written == []
    {
      status, written := initial, [];
    }

    /** The writes of one step, up to its fault. */
    method WriteAll(writes: seq<Status>, fault: Fault) returns (ok: bool)
      modifies this
      ensures ok <==> !Strikes(fault, writes)
      ensures status == Reached(old(status), writes, fault)
      ensures written == old(written) + Made(writes, fault)
    {
      for i := 0 to |writes|
        invariant status == if i == 0 then old(status) else writes[i - 1]
        invariant written == old(written) + writes[..i]
        invariant fault.Some? ==> i <= fault.value
      {
        if fault == Some(i) {
          return false;
        }
        status, written := writes[i], written + [writes[i]];
      }
      ok := fault != Some(|writes|);
    }

    method Step(env: Env, fault: Fault) returns (ok: bool, again: bool)
      modifies this
      ensures Stepped(status, ok, again) == StepOnce(env, old(status), fault)
      ensures written == old(written) + Made(PhaseOf(env, old(status)).writes, fault)
    {
      var before, phase := status, PhaseOf(env, status);
      ok := WriteAll(phase.writes, fault);
      again := ok && !phase.stop && status != before;
    }

    /** One ingest job: at most five steps, whatever fails. */
    method Run(env: Env, faults: nat -> Fault) returns (ok: bool, steps: nat)
      modifies this
      ensures Outcome(status, ok) == RunFrom(env, faults, 0, old(status))
      ensures written == old(written) + Trail(env, faults, 0, old(status))
      ensures 1 <= steps <= 5
    {
      steps := 0;
      while true
        invariant steps <= Rank(status)
        invariant RunFrom(env, faults, steps, status) == RunFrom(env, faults, 0, old(status))
        invariant written + Trail(env, faults, steps, status) == old(written) + Trail(env, faults, 0, old(status))
        decreases MAX_RANK - Rank(status)
      {
        StepAdvances(env, status);
        TrailStep(env, faults, steps, status, written);
        var again;
        ok, again := Step(env, faults(steps));
        steps := steps + 1;
        if !again {
          return;
        }
      }
    }
  }

  // ---------- recovery ----------

  const NO_FAULTS: nat -> Fault := (_: nat) => None

  /** Where a run without faults ends. */
  function Terminus(env: Env, status: Status): Status {
    match Rank(status)
    case 0 => if env.isArchive then Done else if env.handlesMime && env.hasLlm then Done else Tainted
    case 1 => if env.hasLlm then Done else Tainted
    case 2 => if env.hasLlm then Done else Tainted
    case 3 => Done
    case _ => status
  }

  /** From every status, whatever fault left it there, a run without faults succeeds and ends where
      the configuration says: in Done, or in Tainted when an extractor or a model is missing. */
  lemma {:induction false} RerunRecovers(env: Env, i: nat, status: Status)
    ensures RunFrom(env, NO_FAULTS, i, status) == Outcome(Terminus(env, status), true)
    decreases MAX_RANK - Rank(status)
  {
    StepAdvances(env, status);
    var step := StepOnce(env, status, None);
    if step.again {
      RerunRecovers(env, i + 1, step.status);
    }
  }

  /** Everything that happens to a source: jobs run with whatever configuration holds then and
      whatever faults, a dead job has it marked failed, a new upload sets it back to pending. */
  datatype Event = Job(env: Env, faults: nat -> Fault) | JobDied | Replaced

  function EventStep(status: Status, event: Event): Status {
    match event
    case Job(env, faults) => RunFrom(env, faults, 0, status).status
    case JobDied => Failed
    case Replaced => Pending
  }

  /** Statuses a source is ever found in. */
  predicate InUse(status: Status) {
    !status.AgentDistilled? && !status.Validating? && !status.Validated? && !status.Committing? && !status.Dead?
  }

  lemma {:induction false} RunStaysInUse(env: Env, faults: nat -> Fault, i: nat, status: Status)
    requires InUse(status)
    ensures InUse(RunFrom(env, faults, i, status).status)
    ensures Rank(RunFrom(env, faults, i, status).status) >= Rank(status)
    decreases MAX_RANK - Rank(status)
  {
    var step := StepOnce(env, status, faults(i));
    StepAdvances(env, status);
    FaultsSetNothingBack(env, status, faults(i));
    if step.again {
      RunStaysInUse(env, faults, i + 1, step.status);
    }
  }

  /** Over every history of faults, crashes, retries and replacements a source stays recoverable:
      it is never in one of the five statuses no step writes, so a run without faults ends in Done
      or in Tainted. */
  lemma {:induction false} AlwaysRecoverable(history: seq<Event>, env: Env)
    ensures var s := FoldLeft(EventStep, Pending, history);
            InUse(s) && RunFrom(env, NO_FAULTS, 0, s).ok && RunFrom(env, NO_FAULTS, 0, s).status in {Done, Tainted}
    decreases |history|
  {
    var s := FoldLeft(EventStep, Pending, history);
    if history != [] {
      var n := |history| - 1;
      var before := FoldLeft(EventStep, Pending, history[..n]);
      AlwaysRecoverable(history[..n], env);
      FoldStep(EventStep, Pending, history, n);
      assert history[..n + 1] == history;
      if history[n].Job? {
        RunStaysInUse(history[n].env, history[n].faults, 0, before);
      }
    }
    RerunRecovers(env, 0, s);
  }

  /** The status the last step of a run started from. */
  function LastFrom(env: Env, faults: nat -> Fault, i: nat, status: Status): Status
    decreases MAX_RANK - Rank(status)
  {
    var step := StepOnce(env, status, faults(i));
    if step.again then
      StepAdvances(env, status);
      LastFrom(env, faults, i + 1, step.status)
    else status
  }

  /** The step that failed leaves the source at its own stage or a later one, so a later run, with
      any configuration, repeats no earlier phase, and from there it succeeds. */
  lemma {:induction false} FailedRunResumes(env: Env, faults: nat -> Fault, i: nat, status: Status, later: Env)
    requires !RunFrom(env, faults, i, status).ok
    ensures var from, left := LastFrom(env, faults, i, status), RunFrom(env, faults, i, status).status;
            && Rank(from) >= Rank(status) && Rank(left) >= Rank(from)
            && (exists fault: Fault :: fault.Some? && StepOnce(env, from, fault) == Stepped(left, false, false))
            && RunFrom(later, NO_FAULTS, 0, left) == Outcome(Terminus(later, left), true)
    decreases MAX_RANK - Rank(status)
  {
    var step := StepOnce(env, status, faults(i));
    StepAdvances(env, status);
    FaultsSetNothingBack(env, status, faults(i));
    if step.again {
      FailedRunResumes(env, faults, i + 1, step.status, later);
    } else {
      RerunRecovers(later, 0, step.status);
    }
  }

  lemma TaintedStep(env: Env, fault: Fault)
    ensures StepOnce(env, Tainted, fault).status == Tainted && !StepOnce(env, Tainted, fault).again
  {
  }

  lemma TerminusMoves(env: Env, status: Status)
    requires InUse(status)
    ensures Terminus(env, status) != status <==> status != Done && status != Tainted
  {
  }

  /** Against what the documentation promises, no job resumes a tainted source: with every service
      configured and no fault, it stays tainted, and so does one that was tainted only for lack of
      a model. The sources a run does move are exactly those in use that are neither done nor
      tainted. */
  lemma TaintedIsStuck(env: Env, faults: nat -> Fault, status: Status)
    requires InUse(status)
    ensures RunFrom(env, faults, 0, Tainted).status == Tainted
    ensures RunFrom(env, NO_FAULTS, 0, status).status != status <==> status != Done && status != Tainted
  {
    TaintedStep(env, faults(0));
    TerminusMoves(env, status);
    RerunRecovers(env, 0, status);
  }

  // ---------- the order of the phases ----------

  /** The configuration lets a job write one status over another. */
  predicate MayFollow(env: Env, from: Status, to: Status) {
    match to
    case Extracting => from == Pending || from == Extracting || from == Failed
    case Extracted => from == Extracting && !env.isArchive && env.handlesMime
    case Classifying => env.hasLlm && (from == Extracted || from == Classifying)
    case Classified => env.hasLlm && from == Classifying
    case AgentDistilling => env.hasLlm && (from == Classified || from == AgentDistilling)
    case Committed => env.hasLlm && from == AgentDistilling
    case Embedding => env.hasEmbedder && (from == Committed || from == Embedding)
    case Done =>
      || (env.isArchive && from == Extracting)
      || (env.hasEmbedder && from == Embedding)
      || (!env.hasEmbedder && (from == Committed || from == Embedding))
    case Tainted =>
      || (!env.isArchive && !env.handlesMime && from == Extracting)
      || (!env.hasLlm && (from == Extracted || from == Classifying || from == Classified || from == AgentDistilling))
    case _ => false
  }

  function Follows(env: Env): (Status, Status) -> bool {
    (from: Status, to: Status) => MayFollow(env, from, to)
  }

  /** Every item may follow the one before it. */
  predicate Chained<T>(follows: (T, T) -> bool, from: T, trail: seq<T>)
    decreases |trail|
  {
    trail == [] || (follows(from, trail[0]) && Chained(follows, trail[0], trail[1..]))
  }

  predicate IsLegal(env: Env, from: Status, trail: seq<Status>) {
    Chained(Follows(env), from, trail)
  }

  function LastOf<T>(from: T, trail: seq<T>): T {
    if trail == [] then from else trail[|trail| - 1]
  }

  lemma ChainedPair<T>(follows: (T, T) -> bool, from: T, a: T, b: T)
    ensures Chained(follows, from, [a]) <==> follows(from, a)
    ensures Chained(follows, from, [a, b]) <==> follows(from, a) && follows(a, b)
  {
    assert [a][1..] == [];
    assert [a, b][1..] == [b] && [b][1..] == [];
    assert Chained(follows, a, [b]) <==> follows(a, b);
  }

  lemma {:induction false} ChainedConcat<T>(follows: (T, T) -> bool, from: T, a: seq<T>, b: seq<T>)
    requires Chained(follows, from, a) && Chained(follows, LastOf(from, a), b)
    ensures Chained(follows, from, a + b) && LastOf(from, a + b) == LastOf(LastOf(from, a), b)
    decreases |a|
  {
    if a == [] {
      AppendEmpty(b);
    } else {
      TailAppend(a, b);
      ChainedConcat(follows, a[0], a[1..], b);
    }
  }

  lemma WritesMayFollow(env: Env, status: Status)
    requires InUse(status)
    ensures var writes := PhaseOf(env, status).writes;
            && |writes| <= 2
            && (|writes| > 0 ==> Follows(env)(status, writes[0]))
            && (|writes| > 1 ==> Follows(env)(writes[0], writes[1]))
  {
  }

  lemma StepIsLegal(env: Env, status: Status, fault: Fault)
    requires InUse(status)
    ensures var made := Made(PhaseOf(env, status).writes, fault);
            IsLegal(env, status, made) && LastOf(status, made) == StepOnce(env, status, fault).status
  {
    WritesMayFollow(env, status);
    FirstWritesChained(Follows(env), status, PhaseOf(env, status).writes, fault);
  }

  lemma FirstWritesChained(follows: (Status, Status) -> bool, from: Status, writes: seq<Status>, fault: Fault)
    requires |writes| <= 2 && (|writes| > 0 ==> follows(from, writes[0])) && (|writes| > 1 ==> follows(writes[0], writes[1]))
    ensures Chained(follows, from, Made(writes, fault)) && LastOf(from, Made(writes, fault)) == Reached(from, writes, fault)
  {
    var made := Made(writes, fault);
    if made != [] {
      ChainedPair(follows, from, writes[0], writes[|writes| - 1]);
      assert made == [writes[0]] || made == [writes[0], writes[|writes| - 1]];
    }
  }

  /** A run writes legal statuses only, whatever fails, and leaves the last. */
  lemma {:induction false} RunIsLegal(env: Env, faults: nat -> Fault, i: nat, status: Status)
    requires InUse(status)
    ensures IsLegal(env, status, Trail(env, faults, i, status))
    ensures LastOf(status, Trail(env, faults, i, status)) == RunFrom(env, faults, i, status).status
    decreases MAX_RANK - Rank(status)
  {
    var step := StepOnce(env, status, faults(i));
    StepAdvances(env, status);
    StepIsLegal(env, status, faults(i));
    FaultsSetNothingBack(env, status, faults(i));
    if step.again {
      RunIsLegal(env, faults, i + 1, step.status);
      ChainedConcat(Follows(env), status, Made(PhaseOf(env, status).writes, faults(i)),
                    Trail(env, faults, i + 1, step.status));
    }
  }

  /** A status the source was given: by a job, in its configuration, or from outside. */
  datatype Entry = Entry(status: Status, env: Option<Env>)

  function ByJob(env: Env): Status -> Entry {
    (status: Status) => Entry(status, Some(env))
  }

  function EntriesOf(status: Status, event: Event): seq<Entry> {
    match event
    case Job(env, faults) => Map(ByJob(env), Trail(env, faults, 0, status))
    case JobDied => [Entry(Failed, None)]
    case Replaced => [Entry(Pending, None)]
  }

  /** Every status a source is given over a history, from its first upload on. */
  function Entries(history: seq<Event>): seq<Entry>
    decreases |history|
  {
    if history == [] then [Entry(Pending, None)]
    else
      var n := |history| - 1;
      Entries(history[..n]) + EntriesOf(FoldLeft(EventStep, Pending, history[..n]), history[n])
  }

  /** A job writes what may follow; from outside a source is only marked failed or uploaded again. */
  predicate Continues(before: Entry, next: Entry) {
    match next.env
    case None => next.status == Pending || next.status == Failed
    case Some(env) => MayFollow(env, before.status, next.status)
  }

  predicate IsChronicle(entries: seq<Entry>) {
    && entries != [] && entries[0] == Entry(Pending, None)
    && forall k | 0 < k < |entries| :: Continues(entries[k - 1], entries[k])
  }

  lemma OneMoreEntry(entries: seq<Entry>, next: Entry)
    requires IsChronicle(entries) && Continues(entries[|entries| - 1], next)
    ensures IsChronicle(entries + [next])
  {
  }

  lemma FirstOfJob(entries: seq<Entry>, env: Env, trail: seq<Status>)
    requires trail != []
    ensures entries + Map(ByJob(env), trail) == entries + [ByJob(env)(trail[0])] + Map(ByJob(env), trail[1..])
  {
    MapHead(ByJob(env), trail);
    AppendAssociates(entries, [ByJob(env)(trail[0])], Map(ByJob(env), trail[1..]));
  }

  lemma {:induction false} JobContinues(entries: seq<Entry>, env: Env, trail: seq<Status>)
    requires IsChronicle(entries) && IsLegal(env, entries[|entries| - 1].status, trail)
    ensures var all := entries + Map(ByJob(env), trail);
            IsChronicle(all) && all[|all| - 1].status == LastOf(entries[|entries| - 1].status, trail)
    decreases |trail|
  {
    if trail == [] {
      AppendEmpty(entries);
    } else {
      OneMoreEntry(entries, ByJob(env)(trail[0]));
      JobContinues(entries + [ByJob(env)(trail[0])], env, trail[1..]);
      FirstOfJob(entries, env, trail);
    }
  }

  /** Over every history each status is written over one it may follow. */
  lemma {:induction false} HistoriesAreChronicles(history: seq<Event>)
    ensures var entries := Entries(history);
            && IsChronicle(entries)
            && entries[|entries| - 1].status == FoldLeft(EventStep, Pending, history)
            && InUse(FoldLeft(EventStep, Pending, history))
    decreases |history|
  {
    if history != [] {
      var n := |history| - 1;
      var before := FoldLeft(EventStep, Pending, history[..n]);
      HistoriesAreChronicles(history[..n]);
      FoldStep(EventStep, Pending, history, n);
      assert history[..n + 1] == history;
      match history[n]
      case Job(env, faults) =>
        RunIsLegal(env, faults, 0, before);
        RunStaysInUse(env, faults, 0, before);
        JobContinues(Entries(history[..n]), env, Trail(env, faults, 0, before));
      case JobDied => OneMoreEntry(Entries(history[..n]), Entry(Failed, None));
      case Replaced => OneMoreEntry(Entries(history[..n]), Entry(Pending, None));
    }
  }

  /** Since the last upload or failure the source was given these statuses before entry `k`, in this
      order. */
  predicate PassedThrough(entries: seq<Entry>, k: nat, stages: seq<Status>)
    requires k < |entries|
    decreases |stages|
  {
    stages == [] ||
    exists j :: 0 <= j < k && entries[j].status == stages[|stages| - 1] && JobsOnly(entries, j, k)
                && PassedThrough(entries, j, stages[..|stages| - 1])
  }

  /** All entries after `j` up to `k` are written by jobs. */
  predicate JobsOnly(entries: seq<Entry>, j: nat, k: nat)
    requires k < |entries|
  {
    forall m | j < m <= k :: entries[m].env.Some?
  }

  /** What a source must have passed through to be given a status. */
  function StagesBefore(status: Status): seq<Status> {
    match status
    case Extracted => [Extracting]
    case Classifying => [Extracting, Extracted]
    case Classified => [Extracting, Extracted, Classifying]
    case AgentDistilling => [Extracting, Extracted, Classifying, Classified]
    case Committed => [Extracting, Extracted, Classifying, Classified, AgentDistilling]
    case Embedding => [Extracting, Extracted, Classifying, Classified, AgentDistilling, Committed]
    case _ => []
  }

  lemma PassesOn(entries: seq<Entry>, k: nat, stages: seq<Status>)
    requires 0 < k < |entries| && entries[k].env.Some? && PassedThrough(entries, k - 1, stages)
    ensures PassedThrough(entries, k, stages)
    ensures PassedThrough(entries, k, stages + [entries[k - 1].status])
  {
    assert JobsOnly(entries, k - 1, k);
    assert (stages + [entries[k - 1].status])[..|stages|] == stages;
    if stages != [] {
      var j :| 0 <= j < k - 1 && entries[j].status == stages[|stages| - 1] && JobsOnly(entries, j, k - 1)
               && PassedThrough(entries, j, stages[..|stages| - 1]);
      assert JobsOnly(entries, j, k);
    }
  }

  lemma StagesGrow(env: Env, from: Status, to: Status)
    requires MayFollow(env, from, to)
    ensures || StagesBefore(to) == []
            || StagesBefore(to) == StagesBefore(from)
            || StagesBefore(to) == StagesBefore(from) + [from]
    ensures to == Done && !env.isArchive ==>
              StagesBefore(Embedding) == StagesBefore(from) || StagesBefore(Embedding) == StagesBefore(from) + [from]
  {
  }

  /** No phase is ever skipped: over every history a source extracted, classified, distilled, committed
      or embedding has, since it was last uploaded or given up, been through every phase before, in
      order; and a source is done only as an archive or after all of them. */
  lemma PhasesInOrder(history: seq<Event>, k: nat)
    requires k < |Entries(history)|
    ensures var e := Entries(history)[k];
            && PassedThrough(Entries(history), k, StagesBefore(e.status))
            && (e.status == Done ==>
                  e.env.Some? && (e.env.value.isArchive || PassedThrough(Entries(history), k, StagesBefore(Embedding))))
  {
    HistoriesAreChronicles(history);
    ChroniclesAreInOrder(Entries(history), k);
  }

  lemma {:induction false} ChroniclesAreInOrder(entries: seq<Entry>, k: nat)
    requires IsChronicle(entries) && k < |entries|
    ensures var e := entries[k];
            && PassedThrough(entries, k, StagesBefore(e.status))
            && (e.status == Done ==>
                  e.env.Some? && (e.env.value.isArchive || PassedThrough(entries, k, StagesBefore(Embedding))))
  {
    if k > 0 {
      ChroniclesAreInOrder(entries, k - 1);
      assert Continues(entries[k - 1], entries[k]);
      if entries[k].env.Some? {
        PassesOn(entries, k, StagesBefore(entries[k - 1].status));
        StagesGrow(entries[k].env.value, entries[k - 1].status, entries[k].status);
      }
    }
  }

  function EmbeddingCourse(env: Env): seq<Status> {
    if env.hasEmbedder then [Embedding, Done] else [Done]
  }

  function DistillingCourse(env: Env): seq<Status> {
    if env.hasLlm then [AgentDistilling, Committed] + EmbeddingCourse(env) else [Tainted]
  }

  function ClassifyingCourse(env: Env): seq<Status> {
    if env.hasLlm then [Classifying, Classified] + DistillingCourse(env) else [Tainted]
  }

  /** What is written from a stage on when nothing fails. */
  function Course(env: Env, stage: nat): seq<Status> {
    match stage
    case 0 =>
      if env.isArchive then [Extracting, Done]
      else if !env.handlesMime then [Extracting, Tainted]
      else [Extracting, Extracted] + ClassifyingCourse(env)
    case 1 => ClassifyingCourse(env)
    case 2 => DistillingCourse(env)
    case 3 => EmbeddingCourse(env)
    case _ => []
  }

  /** The step makes the first writes of the course, and what is left is the course of its new stage. */
  ghost predicate KeepsCourse(env: Env, status: Status) {
    var step := StepOnce(env, status, None);
    Course(env, Rank(status)) ==
      PhaseOf(env, status).writes + if step.again then Course(env, Rank(step.status)) else []
  }

  lemma ExtractingKeepsCourse(env: Env, status: Status)
    requires Rank(status) == 0
    ensures KeepsCourse(env, status)
  {
    var last := if env.isArchive then Done else if env.handlesMime then Extracted else Tainted;
    assert PhaseOf(env, status) == Phase([Extracting, last], false);
    assert StepOnce(env, status, None) == Stepped(last, true, true);
  }

  lemma EmbeddingKeepsCourse(env: Env, status: Status)
    requires Rank(status) >= 3 && InUse(status)
    ensures KeepsCourse(env, status)
  {
  }

  lemma StageCourse(env: Env, status: Status)
    requires InUse(status)
    ensures KeepsCourse(env, status)
  {
    if Rank(status) == 0 {
      ExtractingKeepsCourse(env, status);
    } else if Rank(status) >= 3 {
      EmbeddingKeepsCourse(env, status);
    } else if env.hasLlm {
      var writes := if Rank(status) == 1 then [Classifying, Classified] else [AgentDistilling, Committed];
      assert PhaseOf(env, status) == Phase(writes, false);
    } else {
      assert PhaseOf(env, status) == Phase([Tainted], true);
    }
  }

  /** A run without faults takes its course from the stage the source is at, whichever of the stage's
      statuses it was left in. */
  lemma {:induction false} RunTakesItsCourse(env: Env, i: nat, status: Status)
    requires InUse(status)
    ensures Trail(env, NO_FAULTS, i, status) == Course(env, Rank(status))
    decreases MAX_RANK - Rank(status)
  {
    var step := StepOnce(env, status, None);
    StepAdvances(env, status);
    StageCourse(env, status);
    if step.again {
      RunTakesItsCourse(env, i + 1, step.status);
    }
  }
}
