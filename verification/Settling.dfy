/** The queue drains and the sources settle: from every world of a history, whatever has crashed, the
    workers can go on so that no source is left waiting that is owed something. */
module Settling {
  import opened Jobs
  import opened Lease
  import opened Pipeline
  import opened Seqs
  import opened Wrappers
  import Sources = Ingest

  /** Coherent, with a regular queue, and within the leases. */
  predicate Sound(w: World) {
    Coherent(w) && Regular(w.queue) && LeaseRespected(w.queue)
  }

  /** The status of the source a handler ingests, if it has one that is there. */
  function StatusOf(w: World, r: nat): Option<Status> {
    if SourceOf(w, r).Some? && SourceOf(w, r).value in w.statuses then Some(w.statuses[SourceOf(w, r).value]) else None
  }

  /** An event of the pipeline itself, without a crash or a fault: a handler fails only if its job
      names no source, or one that is gone. */
  predicate IsWork(w: World, e: Event) {
    match e
    case Protocol(step) => !step.Crash? && !step.Enqueue?
    case End(r, ok) => ok || StatusOf(w, r).None?
    case Arrive(_) => false
    case Abandon(_) => false
    case Lose(_) => false
    case Delete(_) => false
    case _ => true
  }

  /** The event can happen, within the leases. */
  predicate Proceeds(w: World, e: Event) {
    Can(w, e) && IsWork(w, e) && LeaseRespected(Next(w, e).queue)
  }

  /** The events lead from one world to the other. */
  predicate Leads(w: World, events: seq<Event>, v: World)
    decreases |events|
  {
    if events == [] then v == w else Proceeds(w, events[0]) && Leads(Next(w, events[0]), events[1..], v)
  }

  lemma {:induction false} LeadsOn(w: World, events: seq<Event>, v: World, more: seq<Event>, u: World)
    requires Leads(w, events, v) && Leads(v, more, u)
    ensures Leads(w, events + more, u)
    decreases |events|
  {
    if events == [] {
      AppendEmpty(more);
    } else {
      TailAppend(events, more);
      LeadsOn(Next(w, events[0]), events[1..], v, more, u);
    }
  }

  lemma LeadsOne(w: World, e: Event)
    requires Proceeds(w, e)
    ensures Leads(w, [e], Next(w, e))
  {
    assert [e][1..] == [];
    assert Leads(Next(w, e), [], Next(w, e));
  }

  // ---------- what every event keeps ----------

  lemma StaysSound(w: World, e: Event)
    requires Sound(w) && Can(w, e) && LeaseRespected(Next(w, e).queue)
    ensures Sound(Next(w, e))
  {
    StaysCoherent(w, e);
    match e
    case Protocol(step) => StaysRegular(w.queue, step);
    case Submit(_, job) => StaysRegular(w.queue, Enqueue(job));
    case _ =>
  }

  /** No live handler of a stranded source has anything to do but look and complete its row. */
  lemma StrandedIsEnding(w: World, source: string, r: nat)
    requires Coherent(w) && Stranded(w, source) && SourceOf(w, r) == Some(source)
    ensures r in w.at && Ending(w.at[r], w.statuses[source])
  {
    var id := w.queue.live[r].id;
    assert !Tends(w, source, id);
  }

  predicate IsPending(w: World, source: string, id: JobId) {
    id < |w.queue.jobs| && IsIngestOf(w.queue.jobs[id], source) && Unfinished(w.queue.jobs[id])
  }

  /** An unfinished row of a stranded source has a live handler that is ending. */
  lemma EnderOf(w: World, source: string, id: JobId) returns (r: nat)
    requires Stranded(w, source) && IsPending(w, source, id)
    ensures r in w.queue.live && w.queue.live[r].id == id && r in w.at && Ending(w.at[r], w.statuses[source])
  {
    assert !Tends(w, source, id);
    r :| r in w.queue.live && w.queue.live[r].id == id && r in w.at && Ending(w.at[r], w.statuses[source]);
  }

  lemma WorkMarksNoStranded(w: World, e: Event, source: string)
    requires Sound(w) && Proceeds(w, e) && Stranded(w, source)
    ensures !Marked(Next(w, e), source)
  {
    if e.Protocol? && e.step.Fail? && SourceOf(w, e.step.runner) == Some(source) {
      StrandedIsEnding(w, source, e.step.runner);
    }
    forall r | r in Next(w, e).marking
      ensures Next(w, e).marking[r] != source
    {
    }
  }

  lemma StepsAddNothing(w: World, step: Step, source: string, id: JobId)
    requires Sound(w) && Proceeds(w, Protocol(step)) && IsPending(StepWorld(w, step), source, id)
    ensures IsPending(w, source, id)
  {
  }

  lemma StepTendsNoStranded(w: World, step: Step, source: string, id: JobId)
    requires Sound(w) && Proceeds(w, Protocol(step)) && Stranded(w, source)
    ensures !Tends(StepWorld(w, step), source, id)
  {
    var t := StepWorld(w, step);
    if IsPending(t, source, id) {
      StepsAddNothing(w, step, source, id);
      var r := EnderOf(w, source, id);
      assert r in t.queue.live && t.queue.live[r] == w.queue.live[r] && r in t.at && t.at[r] == w.at[r];
    }
  }

  lemma HandlerTendsNoStranded(w: World, e: Event, source: string, id: JobId)
    requires Sound(w) && Proceeds(w, e) && Stranded(w, source) && (e.Read? || e.Write? || e.Look? || e.End?)
    requires source in Next(w, e).statuses && Next(w, e).statuses[source] == w.statuses[source]
    ensures !Tends(Next(w, e), source, id)
  {
    var t := Next(w, e);
    if IsPending(t, source, id) {
      assert t.queue == w.queue;
      var r := EnderOf(w, source, id);
      assert r == e.runner ==> SourceOf(w, r) == Some(source) && e.Look?;
      assert r in t.at && Ending(t.at[r], t.statuses[source]);
    }
  }

  lemma OthersTendNoStranded(w: World, e: Event, source: string, id: JobId)
    requires Sound(w) && Proceeds(w, e) && Stranded(w, source) && (e.Mark? || e.Submit?)
    requires source in Next(w, e).statuses && Next(w, e).statuses[source] == w.statuses[source]
    ensures !Tends(Next(w, e), source, id)
  {
    if IsPending(Next(w, e), source, id) {
      var r := EnderOf(w, source, id);
    }
  }

  lemma WorkTendsNoStranded(w: World, e: Event, source: string, id: JobId)
    requires Sound(w) && Proceeds(w, e) && Stranded(w, source)
    requires source in Next(w, e).statuses && Next(w, e).statuses[source] == w.statuses[source]
    ensures !Tends(Next(w, e), source, id)
  {
    match e
    case Protocol(step) => StepTendsNoStranded(w, step, source, id);
    case Mark(_) => OthersTendNoStranded(w, e, source, id);
    case Submit(_, _) => OthersTendNoStranded(w, e, source, id);
    case _ => HandlerTendsNoStranded(w, e, source, id);
  }

  lemma WorkKeepsStatus(w: World, e: Event, source: string)
    requires Sound(w) && Proceeds(w, e) && Stranded(w, source)
    ensures source in Next(w, e).statuses && Next(w, e).statuses[source] == w.statuses[source]
  {
    if e.Write? && SourceOf(w, e.runner) == Some(source) {
      StrandedIsEnding(w, source, e.runner);
    }
  }

  lemma WorkRescuesNone(w: World, e: Event, source: string)
    requires Sound(w) && Proceeds(w, e) && Stranded(w, source)
    ensures Stranded(Next(w, e), source)
  {
    WorkKeepsStatus(w, e, source);
    WorkMarksNoStranded(w, e, source);
    forall id: JobId
      ensures !Tends(Next(w, e), source, id)
    {
      WorkTendsNoStranded(w, e, source, id);
    }
  }

  lemma UpdateKeepsSources(statuses: map<string, Status>, source: string, status: Status)
    ensures Update(statuses, source, status).Keys == statuses.Keys
  {
  }

  lemma WorkKeepsSources(w: World, e: Event)
    requires Can(w, e) && IsWork(w, e)
    ensures Next(w, e).statuses.Keys == w.statuses.Keys
  {
    match e
    case Write(r) => UpdateKeepsSources(w.statuses, SourceOf(w, r).value, w.at[r].todo[0]);
    case Mark(r) => UpdateKeepsSources(w.statuses, w.marking[r], Sources.Failed);
    case _ => assert Next(w, e).statuses == w.statuses;
  }

  /** The work of the pipeline strands no source, and rescues none. */
  lemma Advances(w: World, e: Event)
    requires Sound(w) && Proceeds(w, e)
    ensures Sound(Next(w, e)) && Next(w, e).statuses.Keys == w.statuses.Keys
    ensures forall source :: Stranded(Next(w, e), source) <==> Stranded(w, source)
  {
    StaysSound(w, e);
    WorkKeepsSources(w, e);
    forall source
      ensures Stranded(Next(w, e), source) <==> Stranded(w, source)
    {
      if Stranded(w, source) {
        WorkRescuesNone(w, e, source);
      } else {
        OnlyDroppingStrands(w, e, source);
      }
    }
  }

  lemma {:induction false} LeadsSoundly(w: World, events: seq<Event>, v: World)
    requires Sound(w) && Leads(w, events, v)
    ensures Sound(v) && v.statuses.Keys == w.statuses.Keys
    ensures forall source :: Stranded(v, source) <==> Stranded(w, source)
    decreases |events|
  {
    if events != [] {
      Advances(w, events[0]);
      LeadsSoundly(Next(w, events[0]), events[1..], v);
    }
  }

  // ---------- one handler to its end ----------

  /** How long a handler that is between steps can go on. */
  function IdleSteps(status: Status): nat {
    2 + 4 * (Sources.MAX_RANK - Sources.Rank(status))
  }

  function StatusAfter(status: Status, todo: seq<Status>): Status {
    if todo == [] then status else todo[|todo| - 1]
  }

  /** The events a handler has left at most. */
  function StepsLeft(p: Position, status: Option<Status>): nat {
    match p
    case Over(_) => 0
    case Idle => (match status case None => 1 case Some(v) => IdleSteps(v))
    case Ticking(_, todo, stop) =>
      |todo| + 1 + (if stop || status.None? then 0 else IdleSteps(StatusAfter(status.value, todo)))
  }

  /** What a handler does next. */
  function Move(w: World, r: nat, env: Sources.Env): Event
    requires r in w.at && !w.at[r].Over?
  {
    if SourceOf(w, r).None? then End(r, !Ingests(w, r))
    else if w.at[r].Idle? then (if StatusOf(w, r).Some? then Read(r, env) else End(r, false))
    else if w.at[r].todo != [] then Write(r)
    else Look(r)
  }

  lemma PhaseIsShort(env: Sources.Env, status: Status)
    ensures var phase := Sources.PhaseOf(env, status);
            StepsLeft(Ticking(status, phase.writes, phase.stop), Some(status)) < IdleSteps(status)
  {
  }

  lemma MoveProceeds(w: World, r: nat, env: Sources.Env)
    requires Sound(w) && r in w.at && !w.at[r].Over?
    ensures Proceeds(w, Move(w, r, env))
    ensures var v := Next(w, Move(w, r, env));
            v.queue == w.queue && v.arriving == w.arriving && v.marking == w.marking
  {
    if SourceOf(w, r).Some? && !w.at[r].Idle? {
      assert IsTicking(w, r);
    }
  }

  lemma ReadFalls(w: World, r: nat, env: Sources.Env)
    requires r in w.at && w.at[r].Idle? && Can(w, Read(r, env))
    ensures var v := Next(w, Read(r, env));
            r in v.at && StepsLeft(v.at[r], StatusOf(v, r)) < StepsLeft(w.at[r], StatusOf(w, r))
  {
    PhaseIsShort(env, StatusOf(w, r).value);
  }

  lemma WriteFalls(w: World, r: nat)
    requires r in w.at && Can(w, Write(r))
    ensures var v := Next(w, Write(r));
            r in v.at && StepsLeft(v.at[r], StatusOf(v, r)) < StepsLeft(w.at[r], StatusOf(w, r))
  {
    var v := Next(w, Write(r));
    assert StatusOf(v, r) == if StatusOf(w, r).Some? then Some(w.at[r].todo[0]) else None;
  }

  lemma LookFalls(w: World, r: nat)
    requires r in w.at && Can(w, Look(r))
    ensures var v := Next(w, Look(r));
            r in v.at && StepsLeft(v.at[r], StatusOf(v, r)) < StepsLeft(w.at[r], StatusOf(w, r))
  {
    assert StatusOf(Next(w, Look(r)), r) == StatusOf(w, r);
  }

  lemma EndFalls(w: World, r: nat, ok: bool)
    requires r in w.at && !w.at[r].Over? && Can(w, End(r, ok))
    ensures var v := Next(w, End(r, ok));
            r in v.at && StepsLeft(v.at[r], StatusOf(v, r)) < StepsLeft(w.at[r], StatusOf(w, r))
  {
  }

  lemma MoveFalls(w: World, r: nat, env: Sources.Env)
    requires r in w.at && !w.at[r].Over? && Can(w, Move(w, r, env))
    ensures var v := Next(w, Move(w, r, env));
            r in v.at && StepsLeft(v.at[r], StatusOf(v, r)) < StepsLeft(w.at[r], StatusOf(w, r))
  {
    match Move(w, r, env)
    case Read(_, _) => ReadFalls(w, r, env);
    case Write(_) => WriteFalls(w, r);
    case Look(_) => LookFalls(w, r);
    case End(_, ok) => EndFalls(w, r, ok);
  }

  /** Event after event, a handler comes to its end. */
  lemma {:induction false} HandlerEnds(w: World, r: nat, env: Sources.Env) returns (events: seq<Event>, v: World)
    requires Sound(w) && r in w.at
    ensures Leads(w, events, v) && Sound(v)
    ensures r in v.at && v.at[r].Over? && v.queue == w.queue && v.arriving == w.arriving && v.marking == w.marking
    decreases StepsLeft(w.at[r], StatusOf(w, r))
  {
    if w.at[r].Over? {
      events, v := [], w;
    } else {
      var e := Move(w, r, env);
      MoveProceeds(w, r, env);
      MoveFalls(w, r, env);
      Advances(w, e);
      var more;
      more, v := HandlerEnds(Next(w, e), r, env);
      LeadsOne(w, e);
      LeadsOn(w, [e], Next(w, e), more, v);
      events := [e] + more;
    }
  }

  // ---------- one piece of work ----------

  /** `n` is above every runner that is busy. */
  predicate Below(w: World, n: nat) {
    (forall r | r in w.queue.live :: r < n) && forall r | r in w.marking :: r < n
  }

  lemma MarkOne(w: World, n: nat) returns (e: Event)
    requires Sound(w) && Below(w, n) && w.marking != map[]
    ensures Proceeds(w, e)
    ensures var v := Next(w, e);
            && Sound(v) && Below(v, n)
            && v.arriving == w.arriving && v.queue == w.queue && |v.marking| < |w.marking|
  {
    var r :| r in w.marking;
    e := Mark(r);
    assert Next(w, e).queue == w.queue;
    Advances(w, e);
    assert (w.marking - {r}).Keys == w.marking.Keys - {r};
    KeysCount(w.marking, r);
  }

  lemma KeysCount(m: map<nat, string>, r: nat)
    requires r in m
    ensures |m - {r}| < |m|
  {
    assert m == (m - {r})[r := m[r]];
  }

  /** The ingest a source waiting for its job is given. */
  function JobFor(source: string): Row {
    Row(JobKind.Ingest, Some(source), Queued, 0, 5, 0, None, None, None)
  }

  lemma SubmitOne(w: World, n: nat) returns (e: Event)
    requires Sound(w) && Below(w, n) && w.arriving != multiset{}
    ensures Proceeds(w, e)
    ensures var v := Next(w, e); Sound(v) && Below(v, n) && |v.arriving| < |w.arriving|
  {
    var source :| source in w.arriving;
    e := Submit(source, JobFor(source));
    Advances(w, e);
  }

  /** The row of a handler that is over is completed or given back. */
  lemma ReleaseOne(w: World, n: nat, r: nat) returns (e: Event)
    requires Sound(w) && Below(w, n) && r in w.at && w.at[r].Over?
    ensures Proceeds(w, e)
    ensures var v := Next(w, e);
            && Sound(v) && Below(v, n)
            && v.arriving == w.arriving && WorkLeft(v.queue) < WorkLeft(w.queue)
  {
    var step := if w.at[r].ok then Complete(r) else Fail(r, "failed");
    e := Protocol(step);
    ReleaseProceeds(w, r, step);
    WorkFalls(w.queue, step);
    assert Next(w, e).queue == Lease.Apply(w.queue, step) && Next(w, e).arriving == w.arriving;
    Advances(w, e);
  }

  lemma ReleaseProceeds(w: World, r: nat, step: Step)
    requires Sound(w) && r in w.at && w.at[r].Over?
    requires step == if w.at[r].ok then Complete(r) else Fail(r, "failed")
    ensures Proceeds(w, Protocol(step))
  {
  }

  /** A handler comes to its end, and the row with it. */
  lemma EndOne(w: World, n: nat, env: Sources.Env) returns (events: seq<Event>, v: World)
    requires Sound(w) && Below(w, n) && w.queue.live != map[]
    ensures Leads(w, events, v) && Sound(v) && Below(v, n)
    ensures v.arriving == w.arriving && WorkLeft(v.queue) < WorkLeft(w.queue)
  {
    var r :| r in w.queue.live;
    var u;
    events, u := HandlerEnds(w, r, env);
    var e := ReleaseOne(u, n, r);
    v := Next(u, e);
    LeadsOne(u, e);
    LeadsOn(w, events, u, [e], v);
    events := events + [e];
  }

  /** With no handler at work, some row is claimed, once it is due. */
  lemma ClaimOne(w: World, n: nat) returns (events: seq<Event>, v: World)
    requires Sound(w) && w.queue.live == map[] && w.marking == map[]
    requires exists id :: 0 <= id < |w.queue.jobs| && !Terminal(w.queue.jobs[id])
    ensures Leads(w, events, v) && Sound(v) && Below(v, n + 1)
    ensures v.arriving == w.arriving && WorkLeft(v.queue) < WorkLeft(w.queue)
  {
    var wait, step := WorkIsAlwaysPossible(w.queue, n);
    var tick := Protocol(Tick(wait));
    var u := Next(w, tick);
    WorkFalls(w.queue, Tick(wait));
    Advances(w, tick);
    WorkFalls(u.queue, step);
    v := Next(u, Protocol(step));
    Advances(u, Protocol(step));
    LeadsOne(w, tick);
    LeadsOne(u, Protocol(step));
    LeadsOn(w, [tick], u, [Protocol(step)], v);
    events := [tick] + [Protocol(step)];
  }

  // ---------- all of it ----------

  /** Nothing is left to do. */
  predicate AtRest(w: World) {
    && w.marking == map[] && w.arriving == multiset{}
    && forall id | 0 <= id < |w.queue.jobs| :: Terminal(w.queue.jobs[id])
  }

  /** Then what is not settled is stranded. */
  lemma RestIsSettled(w: World, source: string)
    requires AtRest(w) && source in w.statuses
    ensures Settled(w.statuses[source]) <==> !Stranded(w, source)
  {
  }

  /** Work goes on, piece after piece, until nothing is left to do; `n` is any bound on the runners now
      busy, and `env` any configuration. */
  lemma {:induction false} WorkEnds(w: World, n: nat, env: Sources.Env) returns (events: seq<Event>, v: World)
    requires Sound(w) && Below(w, n)
    ensures Leads(w, events, v) && AtRest(v)
    decreases |w.arriving|, WorkLeft(w.queue), |w.marking|
  {
    var first, u, m := [], w, n;
    if w.marking != map[] {
      var e := MarkOne(w, n);
      LeadsOne(w, e);
      first, u := [e], Next(w, e);
    } else if w.arriving != multiset{} {
      var e := SubmitOne(w, n);
      LeadsOne(w, e);
      first, u := [e], Next(w, e);
    } else if w.queue.live != map[] {
      first, u := EndOne(w, n, env);
    } else if exists id :: 0 <= id < |w.queue.jobs| && !Terminal(w.queue.jobs[id]) {
      first, u := ClaimOne(w, n);
      m := n + 1;
    } else {
      return [], w;
    }
    var more;
    more, v := WorkEnds(u, m, env);
    LeadsOn(w, first, u, more, v);
    events := first + more;
  }

  /** From every sound world, whatever has crashed, the pipeline can go on, without a crash, a fault or a
      drop and within the leases, until nothing is left to do. However it does so, a source is then
      done, tainted or failed if and only if it was not stranded to begin with. */
  lemma EverySourceSettles(w: World, n: nat, env: Sources.Env) returns (events: seq<Event>, v: World)
    requires Sound(w) && Below(w, n)
    ensures Leads(w, events, v) && AtRest(v)
    ensures forall es, u | Leads(w, es, u) && AtRest(u) ::
              && u.statuses.Keys == w.statuses.Keys
              && forall source | source in w.statuses :: Settled(u.statuses[source]) <==> !Stranded(w, source)
  {
    events, v := WorkEnds(w, n, env);
    forall es, u | Leads(w, es, u) && AtRest(u)
      ensures u.statuses.Keys == w.statuses.Keys
      ensures forall source | source in w.statuses :: Settled(u.statuses[source]) <==> !Stranded(w, source)
    {
      LeadsSoundly(w, es, u);
      forall source | source in w.statuses
        ensures Settled(u.statuses[source]) <==> !Stranded(w, source)
      {
        RestIsSettled(u, source);
      }
    }
  }

  /** Every world of a history within the leases, crashes and drops included, is one to go on from; and
      no source is stranded in it for which nothing was dropped. */
  lemma {:induction false} HistoriesCanGoOn(worlds: seq<World>, events: seq<Event>, k: nat)
    requires IsHistory(worlds, events) && k < |worlds|
    ensures Sound(worlds[k])
    ensures forall source | Stranded(worlds[k], source) ::
              exists j :: 0 <= j < k && Drops(worlds[j], events[j], source)
  {
    if k > 0 {
      HistoriesCanGoOn(worlds, events, k - 1);
      var w, e := worlds[k - 1], events[k - 1];
      assert worlds[k] == Next(w, e);
      StaysSound(w, e);
    }
    forall source | Stranded(worlds[k], source)
      ensures exists j :: 0 <= j < k && Drops(worlds[j], events[j], source)
    {
      var j := StrandedWasDropped(worlds, events, source, k);
    }
  }
}
