/** Sources and the queue together: workers that read and write statuses between the queue's steps,
    uploads that set a status and enqueue in two statements, and a runner that marks a source failed
    in a statement of its own once its job is dead. */
module Pipeline {
  import opened Jobs
  import opened Lease
  import opened Seqs
  import opened Wrappers
  import Sources = Ingest

  type Status = Sources.Status

  /** Where a handler is: between steps, within one, with the status it read and what is still to
      write, or over. */
  datatype Position =
    | Idle
    | Ticking(before: Status, todo: seq<Status>, stop: bool)
    | Over(ok: bool)

  /** `arriving` holds sources set to pending whose job is not enqueued yet, `marking` the runners
      whose job has died and who are about to mark its source. */
  datatype World = World(
    queue: Sys,
    statuses: map<string, Status>,
    at: map<nat, Position>,
    arriving: multiset<string>,
    marking: map<nat, string>)

  datatype Event =
    | Protocol(step: Step)
    | Read(runner: nat, env: Sources.Env)
    | Write(runner: nat)
    | Look(runner: nat)               // the status read after a step
    | End(runner: nat, ok: bool)      // the handler fails, or a job of another kind ends
    | Mark(runner: nat)
    | Lose(runner: nat)               // the mark is never written: a crash, or its error is ignored
    | Arrive(source: string)
    | Submit(source: string, job: Row)
    | Abandon(source: string)         // the upload ends before its job is enqueued
    | Delete(source: string)

  predicate IsIngestOf(row: Row, source: string) {
    row.kind == JobKind.Ingest && row.target == Some(source)
  }

  /** The live handler runs an ingest job. */
  predicate Ingests(w: World, runner: nat) {
    && runner in w.queue.live && w.queue.live[runner].id < |w.queue.jobs|
    && w.queue.jobs[w.queue.live[runner].id].kind == JobKind.Ingest
  }

  /** The source it ingests. */
  function SourceOf(w: World, runner: nat): Option<string> {
    if Ingests(w, runner) then w.queue.jobs[w.queue.live[runner].id].target else None
  }

  predicate At(w: World, runner: nat, p: Position) {
    runner in w.at && w.at[runner] == p
  }

  predicate IsTicking(w: World, runner: nat) {
    runner in w.at && w.at[runner].Ticking? && SourceOf(w, runner).Some?
  }

  predicate CanStep(w: World, step: Step) {
    && Lease.Enabled(w.queue, step)
    && match step
       case Claim(r, _, _) => r !in w.marking
       case Complete(r) => At(w, r, Over(true))
       case Fail(r, _) => At(w, r, Over(false))
       case _ => true
  }

  predicate Can(w: World, e: Event) {
    match e
    case Protocol(step) => CanStep(w, step)
    case Read(r, _) => At(w, r, Idle) && SourceOf(w, r).Some? && SourceOf(w, r).value in w.statuses
    case Write(r) => IsTicking(w, r) && w.at[r].todo != []
    case Look(r) => IsTicking(w, r) && w.at[r].todo == []
    case End(r, ok) => r in w.at && !w.at[r].Over? && (ok ==> !Ingests(w, r))
    case Mark(r) => r in w.marking
    case Lose(r) => r in w.marking
    case Arrive(_) => true
    case Submit(source, job) => source in w.arriving && Fresh(job) && IsIngestOf(job, source)
    case Abandon(source) => source in w.arriving
    case Delete(_) => true
  }

  /** The UPDATE of a status; it finds nothing when the source is gone. */
  function Update(statuses: map<string, Status>, source: string, status: Status): map<string, Status> {
    if source in statuses then statuses[source := status] else statuses
  }

  /** A failed attempt that was the last. */
  predicate Dies(w: World, step: Step) {
    step.Fail? && step.runner in w.queue.live && w.queue.live[step.runner].id < |w.queue.jobs|
    && var row := w.queue.jobs[w.queue.live[step.runner].id]; row.attempt >= row.maxAttempts
  }

  function StepWorld(w: World, step: Step): World
    requires CanStep(w, step)
  {
    var t := w.(queue := Lease.Apply(w.queue, step));
    match step
    case Claim(r, _, _) => t.(at := w.at[r := Idle])
    case Complete(r) => t.(at := w.at - {r})
    case Crash(r) => t.(at := w.at - {r})
    case Fail(r, _) =>
      t.(at := w.at - {r},
         marking := if Dies(w, step) && SourceOf(w, r).Some? then w.marking[r := SourceOf(w, r).value] else w.marking)
    case _ => t
  }

  /** What a handler makes of the status it reads after a step. */
  function Looked(w: World, p: Position, source: string): Position
    requires p.Ticking?
  {
    var after := if source in w.statuses then w.statuses[source] else p.before;
    if p.stop || after == p.before then Over(true) else Idle
  }

  function Next(w: World, e: Event): World
    requires Can(w, e)
  {
    match e
    case Protocol(step) => StepWorld(w, step)
    case Read(r, env) =>
      var before := w.statuses[SourceOf(w, r).value];
      var phase := Sources.PhaseOf(env, before);
      w.(at := w.at[r := Ticking(before, phase.writes, phase.stop)])
    case Write(r) =>
      w.(statuses := Update(w.statuses, SourceOf(w, r).value, w.at[r].todo[0]),
         at := w.at[r := w.at[r].(todo := w.at[r].todo[1..])])
    case Look(r) => w.(at := w.at[r := Looked(w, w.at[r], SourceOf(w, r).value)])
    case End(r, ok) => w.(at := w.at[r := Over(ok)])
    case Mark(r) =>
      w.(statuses := Update(w.statuses, w.marking[r], Sources.Failed), marking := w.marking - {r})
    case Lose(r) => w.(marking := w.marking - {r})
    case Arrive(source) =>
      w.(statuses := w.statuses[source := Sources.Pending], arriving := w.arriving + multiset{source})
    case Submit(source, job) =>
      w.(queue := Lease.Apply(w.queue, Enqueue(job)), arriving := w.arriving - multiset{source})
    case Abandon(source) => w.(arriving := w.arriving - multiset{source})
    case Delete(source) => w.(statuses := w.statuses - {source})
  }

  // ---------- what is promised ----------

  predicate Settled(status: Status) {
    status == Sources.Done || status == Sources.Tainted || status == Sources.Failed
  }

  predicate Unfinished(row: Row) {
    row.state == Queued || row.state == Running
  }

  /** The handler is over, or will be once it looks at this status. */
  predicate Ending(p: Position, status: Status) {
    match p
    case Idle => false
    case Ticking(before, todo, stop) => todo == [] && (stop || status == before)
    case Over(ok) => ok
  }

  /** Row `id` is an unfinished ingest of the source, and no handler is about to complete it. */
  predicate Tends(w: World, source: string, id: JobId)
    requires source in w.statuses
  {
    && id < |w.queue.jobs|
    && IsIngestOf(w.queue.jobs[id], source)
    && Unfinished(w.queue.jobs[id])
    && forall r | r in w.queue.live && w.queue.live[r].id == id && r in w.at :: !Ending(w.at[r], w.statuses[source])
  }

  predicate Marked(w: World, source: string) {
    exists r :: r in w.marking && w.marking[r] == source
  }

  /** Somebody still owes the source something: its job, an ingest, or its mark. */
  ghost predicate Tended(w: World, source: string)
    requires source in w.statuses
  {
    source in w.arriving || Marked(w, source) || exists id: JobId :: Tends(w, source, id)
  }

  /** Neither done, tainted nor failed, and nobody owes it anything. */
  ghost predicate Stranded(w: World, source: string) {
    source in w.statuses && !Settled(w.statuses[source]) && !Tended(w, source)
  }

  /** The event drops the last thing owed to the source: its only pending job is never enqueued, or
      its only mark is never written. */
  ghost predicate Drops(w: World, e: Event, source: string) {
    && Can(w, e) && source in w.statuses && !Settled(w.statuses[source])
    && (forall id: JobId :: !Tends(w, source, id))
    && match e
       case Abandon(s) => s == source && w.arriving[source] == 1 && !Marked(w, source)
       case Lose(r) =>
         && w.marking[r] == source && source !in w.arriving
         && forall q | q in w.marking && w.marking[q] == source :: q == r
       case _ => false
  }

  // ---------- the system is coherent ----------

  /** What a handler has left to write: statuses in use, only settled ones before a stop, and a last
      one other than the status it read. */
  predicate Sane(p: Position) {
    p.Ticking? ==>
      && (forall v | v in p.todo :: Sources.InUse(v))
      && (p.stop ==> forall v | v in p.todo :: Settled(v))
      && (!p.stop && p.todo != [] ==> p.todo[|p.todo| - 1] != p.before)
  }

  predicate Coherent(w: World) {
    && MutualExclusion(w.queue) && ClaimsMatchRows(w.queue)
    && w.at.Keys == w.queue.live.Keys && w.marking.Keys !! w.queue.live.Keys
    && (forall r | r in w.at :: Sane(w.at[r]))
    && (forall s | s in w.statuses :: Sources.InUse(w.statuses[s]))
  }

  lemma PhaseIsSane(env: Sources.Env, before: Status)
    requires Sources.InUse(before)
    ensures var phase := Sources.PhaseOf(env, before);
            && Sane(Ticking(before, phase.writes, phase.stop))
            && (!Settled(before) ==> phase.writes != [])
  {
  }

  lemma WriteIsSane(p: Position)
    requires Sane(p) && p.Ticking? && p.todo != []
    ensures Sane(p.(todo := p.todo[1..])) && Sources.InUse(p.todo[0])
    ensures !Settled(p.todo[0]) ==> !Ending(p.(todo := p.todo[1..]), p.todo[0])
  {
    assert p.todo[0] in p.todo;
  }

  lemma RunnersFollow(w: World, step: Step)
    requires Coherent(w) && CanStep(w, step)
    ensures var t := StepWorld(w, step);
            && t.at.Keys == t.queue.live.Keys && t.marking.Keys !! t.queue.live.Keys
            && forall r | r in t.at :: Sane(t.at[r])
  {
  }

  lemma ProtocolKeepsCoherence(w: World, step: Step)
    requires Coherent(w) && LeaseRespected(w.queue) && CanStep(w, step)
    ensures Coherent(StepWorld(w, step))
  {
    StepSafety(w.queue, step);
    RunnersFollow(w, step);
  }

  lemma MoveKeepsCoherence(w: World, r: nat, p: Position)
    requires Coherent(w) && r in w.at && Sane(p)
    ensures Coherent(w.(at := w.at[r := p]))
  {
  }

  lemma ReadKeepsCoherence(w: World, e: Event)
    requires Coherent(w) && Can(w, e) && e.Read?
    ensures Coherent(Next(w, e))
  {
    var before := w.statuses[SourceOf(w, e.runner).value];
    var phase := Sources.PhaseOf(e.env, before);
    PhaseIsSane(e.env, before);
    MoveKeepsCoherence(w, e.runner, Ticking(before, phase.writes, phase.stop));
  }

  lemma WriteKeepsCoherence(w: World, e: Event)
    requires Coherent(w) && Can(w, e) && e.Write?
    ensures Coherent(Next(w, e))
  {
    WriteIsSane(w.at[e.runner]);
    MoveKeepsCoherence(w, e.runner, w.at[e.runner].(todo := w.at[e.runner].todo[1..]));
  }

  lemma HandlerKeepsCoherence(w: World, e: Event)
    requires Coherent(w) && Can(w, e) && (e.Look? || e.End?)
    ensures Coherent(Next(w, e))
  {
    MoveKeepsCoherence(w, e.runner, Next(w, e).at[e.runner]);
  }

  lemma OthersKeepCoherence(w: World, e: Event)
    requires Coherent(w) && Can(w, e)
    requires e.Mark? || e.Lose? || e.Arrive? || e.Abandon? || e.Delete?
    ensures Coherent(Next(w, e))
  {
  }

  lemma SubmitKeepsCoherence(w: World, e: Event)
    requires Coherent(w) && LeaseRespected(w.queue) && Can(w, e) && e.Submit?
    ensures Coherent(Next(w, e))
  {
    StepSafety(w.queue, Enqueue(e.job));
  }

  lemma StaysCoherent(w: World, e: Event)
    requires Coherent(w) && LeaseRespected(w.queue) && Can(w, e)
    ensures Coherent(Next(w, e))
  {
    match e
    case Protocol(step) => ProtocolKeepsCoherence(w, step);
    case Read(_, _) => ReadKeepsCoherence(w, e);
    case Write(_) => WriteKeepsCoherence(w, e);
    case Submit(_, _) => SubmitKeepsCoherence(w, e);
    case Look(_) => HandlerKeepsCoherence(w, e);
    case End(_, _) => HandlerKeepsCoherence(w, e);
    case _ => OthersKeepCoherence(w, e);
  }

  // ---------- who tends a source after an event ----------

  /** A handler that writes an unsettled status has more to do. */
  lemma WriterTends(w: World, r: nat, source: string)
    requires Coherent(w) && Can(w, Write(r)) && SourceOf(w, r) == Some(source) && source in w.statuses
    requires !Settled(w.at[r].todo[0])
    ensures Tends(Next(w, Write(r)), source, w.queue.live[r].id)
  {
    WriteIsSane(w.at[r]);
  }

  lemma NewcomerTends(w: World, source: string, job: Row)
    requires Coherent(w) && Can(w, Submit(source, job)) && source in w.statuses
    ensures Tends(Next(w, Submit(source, job)), source, |w.queue.jobs|)
  {
  }

  /** The end of a handler on a tending row leaves the row queued, or dead and about to be marked. */
  lemma FailureTends(w: World, step: Step, source: string, id: JobId)
    requires Coherent(w) && CanStep(w, step) && step.Fail?
    requires source in w.statuses && Tends(w, source, id)
    ensures Marked(StepWorld(w, step), source) || Tends(StepWorld(w, step), source, id)
  {
    var t := StepWorld(w, step);
    if w.queue.live[step.runner].id == id && Dies(w, step) {
      assert t.marking[step.runner] == source;
    }
  }

  lemma ProtocolTends(w: World, step: Step, source: string, id: JobId)
    requires Coherent(w) && LeaseRespected(w.queue) && CanStep(w, step) && !step.Fail?
    requires source in w.statuses && Tends(w, source, id)
    ensures Tends(StepWorld(w, step), source, id)
  {
  }

  lemma HandlerTends(w: World, e: Event, source: string, id: JobId)
    requires Coherent(w) && Can(w, e) && (e.Read? || e.Look? || e.End?)
    requires source in w.statuses && !Settled(w.statuses[source]) && Tends(w, source, id)
    ensures Tends(Next(w, e), source, id)
  {
    if e.Read? {
      PhaseIsSane(e.env, w.statuses[SourceOf(w, e.runner).value]);
    }
  }

  lemma OthersTend(w: World, e: Event, source: string, id: JobId)
    requires Coherent(w) && Can(w, e) && source in w.statuses && Tends(w, source, id)
    requires e.Mark? || e.Lose? || e.Arrive? || e.Submit? || e.Abandon? || e.Delete? || e.Write?
    requires e.Write? ==> SourceOf(w, e.runner) != Some(source)
    requires source in Next(w, e).statuses && Next(w, e).statuses[source] == w.statuses[source]
    ensures Tends(Next(w, e), source, id)
  {
  }

  /** Unless its own status is written, a tending row goes on tending, or its source is about to be
      marked. */
  lemma TenderStays(w: World, e: Event, source: string, id: JobId)
    requires Coherent(w) && LeaseRespected(w.queue) && Can(w, e)
    requires source in w.statuses && !Settled(w.statuses[source]) && Tends(w, source, id)
    requires e.Write? ==> SourceOf(w, e.runner) != Some(source)
    requires source in Next(w, e).statuses && Next(w, e).statuses[source] == w.statuses[source]
    ensures Marked(Next(w, e), source) || Tends(Next(w, e), source, id)
  {
    match e
    case Protocol(step) =>
      if step.Fail? {
        FailureTends(w, step, source, id);
      } else {
        ProtocolTends(w, step, source, id);
      }
    case Read(_, _) => HandlerTends(w, e, source, id);
    case Look(_) => HandlerTends(w, e, source, id);
    case End(_, _) => HandlerTends(w, e, source, id);
    case _ => OthersTend(w, e, source, id);
  }

  lemma MarkStays(w: World, e: Event, source: string)
    requires Coherent(w) && Can(w, e) && Marked(w, source)
    ensures Marked(Next(w, e), source) || ((e.Mark? || e.Lose?) && w.marking[e.runner] == source
            && forall q | q in w.marking && w.marking[q] == source :: q == e.runner)
  {
    var r :| r in w.marking && w.marking[r] == source;
    if (e.Mark? || e.Lose?) && w.marking[e.runner] == source {
      if q :| q in w.marking && w.marking[q] == source && q != e.runner {
        assert Next(w, e).marking[q] == source;
      }
    } else {
      assert r in Next(w, e).marking && Next(w, e).marking[r] == source;
    }
  }

  lemma ArrivalStays(w: World, e: Event, source: string)
    requires Can(w, e) && source in w.arriving
    ensures source in Next(w, e).arriving || ((e.Submit? || e.Abandon?) && e.source == source && w.arriving[source] == 1)
  {
  }

  /** A source whose status an event leaves alone stays tended unless the event drops it. */
  lemma DebtStays(w: World, e: Event, source: string)
    requires Coherent(w) && LeaseRespected(w.queue) && Can(w, e)
    requires source in w.statuses && !Settled(w.statuses[source]) && Tended(w, source) && !Drops(w, e, source)
    requires e.Write? ==> SourceOf(w, e.runner) != Some(source)
    requires e.Submit? ==> e.source != source
    requires source in Next(w, e).statuses && Next(w, e).statuses[source] == w.statuses[source]
    ensures Tended(Next(w, e), source)
  {
    if id: JobId :| Tends(w, source, id) {
      TenderStays(w, e, source, id);
    } else {
      if Marked(w, source) {
        MarkStays(w, e, source);
      }
      if source in w.arriving {
        ArrivalStays(w, e, source);
      }
    }
  }

  lemma StatusStays(w: World, e: Event, source: string)
    requires Can(w, e) && source in Next(w, e).statuses && !Settled(Next(w, e).statuses[source])
    requires !(e.Arrive? && e.source == source) && !(e.Write? && SourceOf(w, e.runner) == Some(source))
    ensures source in w.statuses && Next(w, e).statuses[source] == w.statuses[source]
  {
  }

  lemma StaysTended(w: World, e: Event, source: string)
    requires Coherent(w) && LeaseRespected(w.queue) && Can(w, e) && !Drops(w, e, source)
    requires source in w.statuses && !Settled(w.statuses[source]) ==> Tended(w, source)
    requires source in Next(w, e).statuses && !Settled(Next(w, e).statuses[source])
    ensures Tended(Next(w, e), source)
  {
    if e.Submit? && e.source == source {
      NewcomerTends(w, source, e.job);
    } else if e.Write? && SourceOf(w, e.runner) == Some(source) {
      WriterTends(w, e.runner, source);
    } else if e.Arrive? && e.source == source {
      assert source in Next(w, e).arriving;
    } else {
      StatusStays(w, e, source);
      DebtStays(w, e, source);
    }
  }

  lemma OnlyDroppingStrands(w: World, e: Event, source: string)
    requires Coherent(w) && LeaseRespected(w.queue) && Can(w, e)
    requires !Stranded(w, source) && !Drops(w, e, source)
    ensures !Stranded(Next(w, e), source)
  {
    if source in Next(w, e).statuses && !Settled(Next(w, e).statuses[source]) {
      StaysTended(w, e, source);
    }
  }

  lemma DroppingStrands(w: World, e: Event, source: string)
    requires Drops(w, e, source)
    ensures Stranded(Next(w, e), source)
  {
    var t := Next(w, e);
    assert forall id: JobId :: Tends(t, source, id) ==> Tends(w, source, id);
  }

  // ---------- runs ----------

  predicate Begins(w: World) {
    Init(w.queue) && w.statuses == map[] && w.at == map[] && w.arriving == multiset{} && w.marking == map[]
  }

  /** Any interleaving, within the leases. */
  ghost predicate IsHistory(worlds: seq<World>, events: seq<Event>) {
    && |worlds| == |events| + 1
    && Begins(worlds[0])
    && (forall k | 0 <= k < |worlds| :: LeaseRespected(worlds[k].queue))
    && forall k {:trigger events[k]} | 0 <= k < |events| ::
         Can(worlds[k], events[k]) && worlds[k + 1] == Next(worlds[k], events[k])
  }

  lemma {:induction false} HistoryIsCoherent(worlds: seq<World>, events: seq<Event>, k: nat)
    requires IsHistory(worlds, events) && k < |worlds|
    ensures Coherent(worlds[k])
  {
    if k > 0 {
      HistoryIsCoherent(worlds, events, k - 1);
      assert worlds[k] == Next(worlds[k - 1], events[k - 1]);
      StaysCoherent(worlds[k - 1], events[k - 1]);
    }
  }

  lemma {:induction false} StrandedWasDropped(worlds: seq<World>, events: seq<Event>, source: string, k: nat)
    returns (j: nat)
    requires IsHistory(worlds, events) && k < |worlds| && Stranded(worlds[k], source)
    ensures j < k && Drops(worlds[j], events[j], source)
  {
    assert k > 0;
    j := k - 1;
    assert worlds[k] == Next(worlds[j], events[j]);
    HistoryIsCoherent(worlds, events, j);
    if Stranded(worlds[j], source) {
      j := StrandedWasDropped(worlds, events, source, j);
    } else if !Drops(worlds[j], events[j], source) {
      OnlyDroppingStrands(worlds[j], events[j], source);
    }
  }

  /** No source is stranded, whatever the interleaving of workers, crashes and uploads, except for
      this: over any history a source that is neither done, tainted nor failed is at some point left
      with no ingest that has more to do, and nobody about to enqueue or mark it, if and only if at
      some event the last thing owed to it was dropped. */
  lemma StrandedExactly(worlds: seq<World>, events: seq<Event>, source: string)
    requires IsHistory(worlds, events)
    ensures (exists k :: 0 <= k < |worlds| && Stranded(worlds[k], source)) <==>
            (exists k :: 0 <= k < |events| && Drops(worlds[k], events[k], source))
  {
    if k :| 0 <= k < |worlds| && Stranded(worlds[k], source) {
      var j := StrandedWasDropped(worlds, events, source, k);
    }
    if k :| 0 <= k < |events| && Drops(worlds[k], events[k], source) {
      DroppingStrands(worlds[k], events[k], source);
      assert worlds[k + 1] == Next(worlds[k], events[k]);
    }
  }

  /** A worker may die at any point of its handler; the source it worked on keeps its status and its job,
      and is never stranded by it. */
  lemma CrashStrandsNone(w: World, r: nat, source: string)
    requires Coherent(w) && r in w.queue.live && SourceOf(w, r) == Some(source) && source in w.statuses
    ensures Can(w, Protocol(Crash(r)))
    ensures var t := Next(w, Protocol(Crash(r)));
            && t.statuses == w.statuses && t.queue.jobs == w.queue.jobs
            && r !in t.queue.live && r !in t.at && Tends(t, source, w.queue.live[r].id) && !Stranded(t, source)
  {
    var t := Next(w, Protocol(Crash(r)));
    assert Tends(t, source, w.queue.live[r].id);
  }

  // ---------- failed for a reason ----------

  /** No handler writes `failed`: only a mark does. */
  predicate WritesNoFailure(w: World) {
    forall r | r in w.at && w.at[r].Ticking? :: Sources.Failed !in w.at[r].todo
  }

  lemma PhaseWritesNoFailure(env: Sources.Env, before: Status)
    ensures Sources.Failed !in Sources.PhaseOf(env, before).writes
  {
  }

  /** A position is new when its handler has just read the status; otherwise it has no more to write
      than before. */
  lemma OnlyReadsAddWrites(w: World, e: Event, r: nat)
    requires Can(w, e) && r in Next(w, e).at && Next(w, e).at[r].Ticking?
    requires !(e.Read? && e.runner == r)
    ensures r in w.at && w.at[r].Ticking?
    ensures Next(w, e).at[r].todo == w.at[r].todo || (w.at[r].todo != [] && Next(w, e).at[r].todo == w.at[r].todo[1..])
  {
  }

  lemma StaysWithoutFailure(w: World, e: Event)
    requires Can(w, e) && WritesNoFailure(w)
    ensures WritesNoFailure(Next(w, e))
  {
    forall r | r in Next(w, e).at && Next(w, e).at[r].Ticking?
      ensures Sources.Failed !in Next(w, e).at[r].todo
    {
      if e.Read? && e.runner == r {
        PhaseWritesNoFailure(e.env, w.statuses[SourceOf(w, r).value]);
      } else {
        OnlyReadsAddWrites(w, e, r);
      }
    }
  }

  lemma {:induction false} HistoryWritesNoFailure(worlds: seq<World>, events: seq<Event>, k: nat)
    requires IsHistory(worlds, events) && k < |worlds|
    ensures WritesNoFailure(worlds[k])
  {
    if k > 0 {
      HistoryWritesNoFailure(worlds, events, k - 1);
      assert worlds[k] == Next(worlds[k - 1], events[k - 1]);
      StaysWithoutFailure(worlds[k - 1], events[k - 1]);
    }
  }

  predicate IsFailed(w: World, source: string) {
    source in w.statuses && w.statuses[source] == Sources.Failed
  }

  lemma OnlyMarksFail(w: World, e: Event, source: string)
    requires Can(w, e) && WritesNoFailure(w) && !IsFailed(w, source) && IsFailed(Next(w, e), source)
    ensures e.Mark? && w.marking[e.runner] == source
  {
  }

  /** The step gives up an ingest of the source: its row is dead afterwards. */
  predicate GivesUp(w: World, e: Event, source: string) {
    && Can(w, e) && e.Protocol? && e.step.Fail?
    && var id := w.queue.live[e.step.runner].id;
       IsIngestOf(w.queue.jobs[id], source) && Next(w, e).queue.jobs[id].state == Dead
  }

  lemma OnlyDeathsAreMarked(w: World, e: Event, r: nat, source: string)
    requires Can(w, e) && r in Next(w, e).marking && Next(w, e).marking[r] == source
    requires !(r in w.marking && w.marking[r] == source)
    ensures GivesUp(w, e, source)
  {
  }

  lemma {:induction false} MarkHasItsDeath(worlds: seq<World>, events: seq<Event>, r: nat, k: nat) returns (i: nat)
    requires IsHistory(worlds, events) && k < |worlds| && r in worlds[k].marking
    ensures i < k && GivesUp(worlds[i], events[i], worlds[k].marking[r])
  {
    assert k > 0;
    var w, e := worlds[k - 1], events[k - 1];
    assert worlds[k] == Next(w, e);
    if r in w.marking && w.marking[r] == worlds[k].marking[r] {
      i := MarkHasItsDeath(worlds, events, r, k - 1);
    } else {
      OnlyDeathsAreMarked(w, e, r, worlds[k].marking[r]);
      i := k - 1;
    }
  }

  /** A source is failed only because an ingest of it was given up: over any history one that is, was
      marked so at some point, and before that the last attempt of an ingest of it had failed. */
  lemma {:induction false} FailedWasGivenUp(worlds: seq<World>, events: seq<Event>, source: string, k: nat)
    returns (i: nat, j: nat)
    requires IsHistory(worlds, events) && k < |worlds| && IsFailed(worlds[k], source)
    ensures i < j < k && GivesUp(worlds[i], events[i], source)
    ensures events[j].Mark? && events[j].runner in worlds[j].marking && worlds[j].marking[events[j].runner] == source
  {
    assert k > 0;
    var w, e := worlds[k - 1], events[k - 1];
    assert worlds[k] == Next(w, e);
    if IsFailed(w, source) {
      i, j := FailedWasGivenUp(worlds, events, source, k - 1);
    } else {
      HistoryWritesNoFailure(worlds, events, k - 1);
      OnlyMarksFail(w, e, source);
      i := MarkHasItsDeath(worlds, events, e.runner, k - 1);
      j := k - 1;
    }
  }

  // ---------- stranded for good ----------

  predicate HasIngest(jobs: seq<Row>, source: string) {
    exists id :: 0 <= id < |jobs| && IsIngestOf(jobs[id], source) && Unfinished(jobs[id])
  }

  /** Unsettled, with no unfinished ingest, no upload on its way and no mark to write. */
  predicate Forgotten(w: World, source: string) {
    && source in w.statuses && !Settled(w.statuses[source])
    && source !in w.arriving && !Marked(w, source) && !HasIngest(w.queue.jobs, source)
  }

  lemma ForgottenIsStranded(w: World, source: string)
    requires Forgotten(w, source)
    ensures Stranded(w, source)
  {
  }

  /** When nothing is left to do for a source it is settled, unless something owed to it was
      dropped: no unfinished ingest, no upload on its way and no mark to write leaves it done,
      tainted or failed. */
  lemma DrainedIsSettled(worlds: seq<World>, events: seq<Event>, source: string)
    requires IsHistory(worlds, events) && forall k | 0 <= k < |events| :: !Drops(worlds[k], events[k], source)
    ensures var w := worlds[|events|];
            && source in w.statuses && source !in w.arriving
            && !Marked(w, source) && !HasIngest(w.queue.jobs, source)
            ==> Settled(w.statuses[source])
  {
    if Forgotten(worlds[|events|], source) {
      ForgottenIsStranded(worlds[|events|], source);
      var j := StrandedWasDropped(worlds, events, source, |events|);
    }
  }

  /** Somebody outside the pipeline acts on the source: it is uploaded again, deleted, or an
      administrator enqueues an ingest. */
  predicate Rescues(e: Event, source: string) {
    match e
    case Arrive(s) => s == source
    case Submit(s, _) => s == source
    case Delete(s) => s == source
    case Protocol(step) => step.Enqueue? && IsIngestOf(step.job, source)
    case _ => false
  }

  lemma ForgottenHasNoHandler(w: World, source: string, r: nat)
    requires Coherent(w) && Forgotten(w, source) && r in w.queue.live
    ensures SourceOf(w, r) != Some(source)
  {
  }

  lemma ProtocolForgets(w: World, step: Step, source: string)
    requires Coherent(w) && CanStep(w, step) && Forgotten(w, source) && !Rescues(Protocol(step), source)
    ensures Forgotten(StepWorld(w, step), source)
  {
    var t := StepWorld(w, step);
    if step.Fail? {
      ForgottenHasNoHandler(w, source, step.runner);
      assert forall r | r in t.marking :: t.marking[r] != source;
    }
    forall id | 0 <= id < |t.queue.jobs| && IsIngestOf(t.queue.jobs[id], source)
      ensures !Unfinished(t.queue.jobs[id])
    {
      assert id < |w.queue.jobs| && IsIngestOf(w.queue.jobs[id], source) && !Unfinished(w.queue.jobs[id]);
    }
  }

  lemma OthersForget(w: World, e: Event, source: string)
    requires Coherent(w) && Can(w, e) && !e.Protocol? && Forgotten(w, source) && !Rescues(e, source)
    ensures Forgotten(Next(w, e), source) && Next(w, e).statuses[source] == w.statuses[source]
  {
    if e.Write? {
      ForgottenHasNoHandler(w, source, e.runner);
    }
    var t := Next(w, e);
    assert forall r | r in t.marking :: t.marking[r] != source;
    if e.Submit? {
      assert t.queue.jobs == w.queue.jobs + [e.job];
    } else {
      assert t.queue == w.queue;
    }
  }

  /** Nothing the pipeline does brings a forgotten source back: it keeps its status until somebody
      acts on it. */
  lemma {:induction false} ForgottenForGood(worlds: seq<World>, events: seq<Event>, source: string, i: nat, j: nat)
    requires IsHistory(worlds, events) && i <= j < |worlds| && Forgotten(worlds[i], source)
    requires forall k | i <= k < j :: !Rescues(events[k], source)
    ensures Forgotten(worlds[j], source) && worlds[j].statuses[source] == worlds[i].statuses[source]
    decreases j
  {
    if i < j {
      ForgottenForGood(worlds, events, source, i, j - 1);
      var w, e := worlds[j - 1], events[j - 1];
      assert worlds[j] == Next(w, e);
      HistoryIsCoherent(worlds, events, j - 1);
      if e.Protocol? {
        ProtocolForgets(w, e.step, source);
      } else {
        OthersForget(w, e, source);
      }
    }
  }

  // ---------- it happens ----------

  /** The row of an ingest that has failed `k` times. */
  function FailedRow(source: string, k: nat): Row {
    Row(JobKind.Ingest, Some(source), if k < 5 then Queued else Dead, k, 5, k * RETRY_DELAY,
        None, None, if k == 0 then None else Some("failed"))
  }

  /** A pending source whose ingest has failed `k` times: the runner of the last attempt is about to
      mark it. */
  function Failing(source: string, k: nat, clock: Time): World {
    World(Sys(clock, [FailedRow(source, k)], map[]), map[source := Sources.Pending], map[], multiset{},
          if k < 5 then map[] else map[0 := source])
  }

  function Last(worlds: seq<World>): World
    requires worlds != []
  {
    worlds[|worlds| - 1]
  }

  lemma Extend(worlds: seq<World>, events: seq<Event>, e: Event) returns (ws: seq<World>, es: seq<Event>)
    requires IsHistory(worlds, events) && Can(Last(worlds), e) && LeaseRespected(Next(Last(worlds), e).queue)
    ensures IsHistory(ws, es) && Last(ws) == Next(Last(worlds), e)
  {
    ws, es := worlds + [Next(Last(worlds), e)], events + [e];
    forall k | 0 <= k < |es|
      ensures Can(ws[k], es[k]) && ws[k + 1] == Next(ws[k], es[k])
    {
      if k < |events| {
        assert es[k] == events[k];
      }
    }
  }

  function Started(source: string, k: nat, p: Position): World {
    var clock := k * RETRY_DELAY;
    var w := Failing(source, k, clock);
    w.(queue := Sys(clock, [ClaimedRow(FailedRow(source, k), "worker-0", clock + LEASE)],
                    map[0 := Handler("worker-0", 0, clock + LEASE)]),
       at := map[0 := p])
  }

  lemma Begun(source: string, k: nat)
    requires k < 5
    ensures var w, e := Failing(source, k, k * RETRY_DELAY), Protocol(Claim(0, "worker-0", 0));
            Can(w, e) && Next(w, e) == Started(source, k, Idle)
  {
    var w, e := Failing(source, k, k * RETRY_DELAY), Protocol(Claim(0, "worker-0", 0));
    assert Next(w, e).queue.jobs == Started(source, k, Idle).queue.jobs;
  }

  lemma GivenUp(source: string, k: nat)
    requires k < 5
    ensures var w, e := Started(source, k, Over(false)), Protocol(Fail(0, "failed"));
            Can(w, e) && Next(w, e) == Failing(source, k + 1, k * RETRY_DELAY)
  {
    var w, e := Started(source, k, Over(false)), Protocol(Fail(0, "failed"));
    assert Next(w, e).queue.jobs == [FailedRow(source, k + 1)];
  }

  /** A job is claimed, the handler fails, and the row is re-queued or, the fifth time, dead. */
  lemma OneAttempt(worlds: seq<World>, events: seq<Event>, source: string, k: nat)
    returns (ws: seq<World>, es: seq<Event>)
    requires IsHistory(worlds, events) && k < 5 && Last(worlds) == Failing(source, k, k * RETRY_DELAY)
    ensures IsHistory(ws, es) && Last(ws) == Failing(source, k + 1, k * RETRY_DELAY)
  {
    Begun(source, k);
    ws, es := Extend(worlds, events, Protocol(Claim(0, "worker-0", 0)));
    ws, es := Extend(ws, es, End(0, false));
    assert Last(ws) == Started(source, k, Over(false));
    GivenUp(source, k);
    ws, es := Extend(ws, es, Protocol(Fail(0, "failed")));
  }

  lemma Upload(source: string) returns (worlds: seq<World>, events: seq<Event>)
    ensures IsHistory(worlds, events) && Last(worlds) == Failing(source, 0, 0)
  {
    var w := World(Sys(0, [], map[]), map[], map[], multiset{}, map[]);
    worlds, events := Extend([w], [], Arrive(source));
    worlds, events := Extend(worlds, events, Submit(source, FailedRow(source, 0)));
    assert Last(worlds).queue.jobs == [FailedRow(source, 0)];
  }

  lemma {:induction false} Attempts(source: string, k: nat) returns (worlds: seq<World>, events: seq<Event>)
    requires k < 5
    ensures IsHistory(worlds, events) && Last(worlds) == Failing(source, k, k * RETRY_DELAY)
  {
    if k == 0 {
      worlds, events := Upload(source);
    } else {
      worlds, events := Attempts(source, k - 1);
      worlds, events := OneAttempt(worlds, events, source, k - 1);
      worlds, events := Extend(worlds, events, Protocol(Tick(k * RETRY_DELAY)));
    }
  }

  lemma LosingTheMark(source: string, clock: Time)
    ensures var w := Failing(source, 5, clock); Can(w, Lose(0)) && Forgotten(Next(w, Lose(0)), source)
  {
    assert Next(Failing(source, 5, clock), Lose(0)).marking == map[];
  }

  /** It does happen: an ingest fails five times, and the worker dies, or the database does, between
      the statement that gives up the job and the one that marks the source. */
  lemma LostMarkStrands(source: string) returns (worlds: seq<World>, events: seq<Event>)
    ensures IsHistory(worlds, events)
    ensures Forgotten(Last(worlds), source) && Last(worlds).statuses[source] == Sources.Pending
  {
    worlds, events := Attempts(source, 4);
    worlds, events := OneAttempt(worlds, events, source, 4);
    LosingTheMark(source, 4 * RETRY_DELAY);
    worlds, events := Extend(worlds, events, Lose(0));
  }

  /** So is one whose upload ends between the statement that records the source and the one that
      enqueues its job. */
  lemma LostUploadStrands(source: string) returns (worlds: seq<World>, events: seq<Event>)
    ensures IsHistory(worlds, events)
    ensures Forgotten(Last(worlds), source) && Last(worlds).statuses[source] == Sources.Pending
  {
    var w := World(Sys(0, [], map[]), map[], map[], multiset{}, map[]);
    worlds, events := Extend([w], [], Arrive(source));
    worlds, events := Extend(worlds, events, Abandon(source));
  }
}
