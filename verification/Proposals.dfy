/** Which of an agent's calls are staged, and what a whole run comes to: told from the calls alone. */
module Proposals {
  import opened Agent
  import opened Paths
  import opened Seqs
  import opened Text
  import opened Wiki
  import opened Wrappers

  /** The name of a markdown file other than the guide, without a slash in front or two dots in a row. */
  predicate MayBeProposed(path: string) {
    && |path| >= 3 && path[|path| - 3..] == ".md" && path != "QPEDIA.md" && path[0] != '/'
    && !HasTwoDots(path)
  }

  predicate HasTwoDots(path: string) {
    exists i :: 0 < i < |path| && path[i] == '.' && path[i - 1] == '.'
  }

  lemma TwoDotsExactly(path: string)
    ensures FindSub(path, "..").Some? <==> HasTwoDots(path)
  {
    if FindSub(path, "..").Some? {
      var k := FindSub(path, "..").value;
      assert path[k..k + 2][0] == path[k] && path[k..k + 2][1] == path[k + 1];
      assert path[k + 1] == '.' && path[k + 1 - 1] == '.';
    } else if i :| 0 < i < |path| && path[i] == '.' && path[i - 1] == '.' {
      assert path[i - 1..i - 1 + 2] == [path[i - 1], path[i]];
      assert OccursAt(path, "..", i - 1);
    }
  }

  lemma AllowedExactly(path: string)
    ensures IsAllowed(path) <==> MayBeProposed(path)
  {
    TwoDotsExactly(path);
    PrefixChar(path, "/", 0);
    if path != "" && path[0] == '/' {
      assert path[..1] == "/";
    }
  }

  /** Given the operations staged before, the call is a proposal that is in order: of a page that is
      not there and not staged yet, or of a change to one that is there or was created before. */
  predicate IsProper(files: Files, before: seq<Op>, call: Call) {
    match call
    case ProposeNew(Some(path), Some(content)) =>
      && MayBeProposed(path) && IsSafe(path) && |content| <= 50 * 1024
      && Resolve(path) !in files && forall op | op in before && Writes(op) :: op.path != path
    case ProposePatch(Some(path), Some(content)) =>
      && MayBeProposed(path) && |content| <= 50 * 1024
      && ((IsSafe(path) && Resolve(path) in files) || exists op :: op in before && op.Create? && op.path == path)
    case _ => false
  }

  /** The operation a proposal asks for, `n` of them staged before. */
  function Asked(complete: Completer, n: nat, call: Call): seq<Op> {
    match call
    case ProposeNew(Some(path), Some(content)) => [Create(path, complete(n, content))]
    case ProposePatch(Some(path), Some(content)) => [Patch(path, content)]
    case _ => []
  }

  /** The operations a run of calls stages: those the proper proposals ask for, in order. */
  function Script(files: Files, complete: Completer, calls: seq<Call>): seq<Op>
    decreases |calls|
  {
    if calls == [] then []
    else
      var n := |calls| - 1;
      var before := Script(files, complete, calls[..n]);
      if IsProper(files, before, calls[n]) then before + Asked(complete, |before|, calls[n]) else before
  }

  // ---------- one call ----------

  lemma StagedPathsAre(st: Staged, path: string)
    requires Kept(st)
    ensures path !in st.createdPaths && path !in st.patchedPaths <==>
              forall op | op in st.ops && Writes(op) :: op.path != path
    ensures path in st.createdPaths <==> exists op :: op in st.ops && op.Create? && op.path == path
  {
  }

  lemma NewIsProper(files: Files, st: Staged, path: string, content: string)
    requires Kept(st)
    ensures IsProposal(path, content) && IsNew(files, st, path) <==>
              IsProper(files, st.ops, ProposeNew(Some(path), Some(content)))
  {
    AllowedExactly(path);
    StagedPathsAre(st, path);
  }

  lemma PatchIsProper(files: Files, st: Staged, path: string, content: string)
    requires Kept(st)
    ensures IsProposal(path, content) && IsKnown(files, st, path) <==>
              IsProper(files, st.ops, ProposePatch(Some(path), Some(content)))
  {
    AllowedExactly(path);
    StagedPathsAre(st, path);
  }

  /** A call is staged exactly if it is a proper proposal, and then as the operation it asks for. */
  lemma ProperIsStaged(files: Files, complete: Completer, st: Staged, call: Call)
    requires Kept(st)
    ensures Stage(files, complete, st, call).ops ==
              if IsProper(files, st.ops, call) then st.ops + Asked(complete, |st.ops|, call) else st.ops
  {
    match call
    case ProposeNew(Some(path), Some(content)) => NewIsProper(files, st, path, content);
    case ProposePatch(Some(path), Some(content)) => PatchIsProper(files, st, path, content);
    case _ =>
  }

  lemma ScriptStep(files: Files, complete: Completer, before: seq<Call>, call: Call)
    ensures var ops := Script(files, complete, before);
            Script(files, complete, before + [call]) ==
              if IsProper(files, ops, call) then ops + Asked(complete, |ops|, call) else ops
  {
    assert (before + [call])[..|before|] == before;
  }

  /** At most 20 operations and 500 KB. */
  predicate Fits(ops: seq<Op>) {
    |ops| <= 20 && TotalSize(ops) <= 500 * 1024
  }

  lemma {:induction false} ScriptGrows(files: Files, complete: Completer, before: seq<Call>, more: seq<Call>)
    ensures Script(files, complete, before) <= Script(files, complete, before + more)
    ensures Fits(Script(files, complete, before + more)) ==> Fits(Script(files, complete, before))
    decreases |more|
  {
    if more == [] {
      AppendEmpty(before);
    } else {
      var n := |more| - 1;
      var ops := Script(files, complete, before + more[..n]);
      ScriptGrows(files, complete, before, more[..n]);
      InitAppend(before, more);
      ScriptStep(files, complete, before + more[..n], more[n]);
      TotalSizeConcat(ops, Asked(complete, |ops|, more[n]));
    }
  }

  // ---------- one turn ----------

  function SummaryOf(call: Call): Option<string> {
    match call case Done(summary) => Some(summary) case _ => None
  }

  /** The summary of the last call that says the work is done. */
  function Summary(calls: seq<Call>): Option<string> {
    LastValue(SummaryOf, calls)
  }

  /** The first call that takes the operations over a budget. */
  predicate Overruns(files: Files, complete: Completer, before: seq<Call>, calls: seq<Call>, i: nat)
    requires i < |calls|
  {
    && Fits(Script(files, complete, before + calls[..i]))
    && !Fits(Script(files, complete, before + calls[..i + 1]))
  }

  function Overrun(ops: seq<Op>): AgentError {
    if |ops| > 20 then OpBudget else ByteBudget
  }

  /** What becomes of a turn's calls, after those before. */
  ghost predicate IsTurn(files: Files, complete: Completer, before: seq<Call>, calls: seq<Call>, done: Option<string>,
                         r: Result<(Staged, Option<string>), AgentError>)
  {
    && (Fits(Script(files, complete, before + calls)) ==>
          && r.Ok? && r.value.0.ops == Script(files, complete, before + calls) && Kept(r.value.0)
          && r.value.1 == if Summary(calls).Some? then Summary(calls) else done)
    && (forall i | 0 <= i < |calls| && Overruns(files, complete, before, calls, i) ::
          r == Err(Overrun(Script(files, complete, before + calls[..i + 1]))))
  }

  lemma LaterOverrun(files: Files, complete: Completer, before: seq<Call>, calls: seq<Call>, i: nat)
    requires 0 < i < |calls|
    ensures Overruns(files, complete, before, calls, i) ==> Fits(Script(files, complete, before + [calls[0]]))
    ensures Overruns(files, complete, before, calls, i) <==>
              Overruns(files, complete, before + [calls[0]], calls[1..], i - 1)
    ensures before + [calls[0]] + calls[1..][..i] == before + calls[..i + 1]
  {
    assert calls[..i] == [calls[0]] + calls[1..][..i - 1];
    assert calls[..i + 1] == [calls[0]] + calls[1..][..i];
    AppendAssociates(before, [calls[0]], calls[1..][..i - 1]);
    AppendAssociates(before, [calls[0]], calls[1..][..i]);
    ScriptGrows(files, complete, before + [calls[0]], calls[1..][..i - 1]);
  }

  lemma TurnGoesOn(files: Files, complete: Completer, before: seq<Call>, calls: seq<Call>, done: Option<string>,
                   r: Result<(Staged, Option<string>), AgentError>)
    requires calls != [] && Fits(Script(files, complete, before + [calls[0]]))
    requires IsTurn(files, complete, before + [calls[0]], calls[1..],
                    if calls[0].Done? then Some(calls[0].summary) else done, r)
    ensures IsTurn(files, complete, before, calls, done, r)
  {
    LastValueCons(SummaryOf, calls);
    HeadTail(calls);
    AppendAssociates(before, [calls[0]], calls[1..]);
    assert calls[..1] == [calls[0]];
    forall i | 0 <= i < |calls| && Overruns(files, complete, before, calls, i)
      ensures r == Err(Overrun(Script(files, complete, before + calls[..i + 1])))
    {
      if i > 0 {
        LaterOverrun(files, complete, before, calls, i);
      }
    }
  }

  lemma TurnIsOver(files: Files, complete: Completer, before: seq<Call>, calls: seq<Call>, done: Option<string>,
                   r: Result<(Staged, Option<string>), AgentError>)
    requires calls != [] && !Fits(Script(files, complete, before + [calls[0]]))
    requires r == Err(Overrun(Script(files, complete, before + [calls[0]])))
    ensures IsTurn(files, complete, before, calls, done, r)
  {
    HeadTail(calls);
    AppendAssociates(before, [calls[0]], calls[1..]);
    ScriptGrows(files, complete, before + [calls[0]], calls[1..]);
    assert calls[..1] == [calls[0]];
    forall i | 0 < i < |calls|
      ensures !Overruns(files, complete, before, calls, i)
    {
      LaterOverrun(files, complete, before, calls, i);
    }
  }

  lemma {:induction false} CallsAreScripted(
      files: Files, complete: Completer, before: seq<Call>, st: Staged, calls: seq<Call>, done: Option<string>)
    requires st.ops == Script(files, complete, before) && Kept(st) && Fits(st.ops)
    ensures IsTurn(files, complete, before, calls, done, RunCalls(files, complete, st, calls, done))
    decreases |calls|
  {
    if calls == [] {
      AppendEmpty(before);
    } else {
      ScriptStep(files, complete, before, calls[0]);
      if calls[0].Done? {
        CallsAreScripted(files, complete, before + [calls[0]], st, calls[1..], Some(calls[0].summary));
        TurnGoesOn(files, complete, before, calls, done, RunCalls(files, complete, st, calls, done));
      } else {
        var next := Stage(files, complete, st, calls[0]);
        ProperIsStaged(files, complete, st, calls[0]);
        StageKeepsBooks(files, complete, st, calls[0]);
        if Fits(next.ops) {
          CallsAreScripted(files, complete, before + [calls[0]], next, calls[1..], done);
          TurnGoesOn(files, complete, before, calls, done, RunCalls(files, complete, st, calls, done));
        } else {
          TurnIsOver(files, complete, before, calls, done, RunCalls(files, complete, st, calls, done));
        }
      }
    }
  }

  // ---------- whole runs ----------

  /** The calls of the turns before `turn`. */
  function CallsBefore(model: Model, turn: nat): seq<Call> {
    if turn == 0 then []
    else CallsBefore(model, turn - 1) + match model(turn - 1) case None => [] case Some(calls) => calls
  }

  /** The turn makes calls, none of which ends the run. */
  predicate GoesOn(files: Files, complete: Completer, model: Model, turn: nat) {
    && model(turn).Some? && model(turn).value != [] && Summary(model(turn).value).None?
    && Fits(Script(files, complete, CallsBefore(model, turn + 1)))
  }

  lemma NextTurn(files: Files, complete: Completer, model: Model, turn: nat, st: Staged, next: Staged)
    requires turn < 18 && RunTurn(files, complete, st, model(turn)) == Ok((next, None))
    ensures RunTurns(files, complete, model, turn, st) == RunTurns(files, complete, model, turn + 1, next)
  {
  }

  /** A turn that goes on leaves the operations of all calls so far. */
  lemma TurnIsScripted(files: Files, complete: Completer, model: Model, turn: nat, st: Staged) returns (next: Staged)
    requires GoesOn(files, complete, model, turn)
    requires st.ops == Script(files, complete, CallsBefore(model, turn)) && Kept(st) && Fits(st.ops)
    ensures next.ops == Script(files, complete, CallsBefore(model, turn + 1)) && Kept(next) && Fits(next.ops)
    ensures RunTurn(files, complete, st, model(turn)) == Ok((next, None))
  {
    CallsAreScripted(files, complete, CallsBefore(model, turn), st, model(turn).value, None);
    next := RunTurn(files, complete, st, model(turn)).value.0;
  }

  /** The run has come to this turn with these operations. */
  ghost predicate ComesTo(files: Files, complete: Completer, model: Model, turn: nat, st: Staged) {
    && st.ops == Script(files, complete, CallsBefore(model, turn)) && Kept(st) && Fits(st.ops)
    && RunTurns(files, complete, model, 0, NOTHING) == RunTurns(files, complete, model, turn, st)
  }

  lemma ComesToNext(files: Files, complete: Completer, model: Model, turn: nat, st: Staged) returns (next: Staged)
    requires turn < 18 && GoesOn(files, complete, model, turn) && ComesTo(files, complete, model, turn, st)
    ensures ComesTo(files, complete, model, turn + 1, next)
  {
    next := TurnIsScripted(files, complete, model, turn, st);
    NextTurn(files, complete, model, turn, st, next);
  }

  lemma {:induction false} RunComesTo(files: Files, complete: Completer, model: Model, turn: nat) returns (st: Staged)
    requires turn <= 18 && forall k | 0 <= k < turn :: GoesOn(files, complete, model, k)
    ensures ComesTo(files, complete, model, turn, st)
  {
    if turn == 0 {
      st := NOTHING;
    } else {
      st := RunComesTo(files, complete, model, turn - 1);
      st := ComesToNext(files, complete, model, turn - 1, st);
    }
  }

  /** What a run comes to, told from the calls: turn after turn, the operations are those the proper
      proposals of all turns ask for, in order, until a turn says it is done, takes them over a budget,
      makes no call or fails, or 18 turns are over. */
  lemma RunIsItsProposals(files: Files, complete: Completer, model: Model, turn: nat)
    requires turn <= 18 && forall k | 0 <= k < turn :: GoesOn(files, complete, model, k)
    ensures var r, before := RunTurns(files, complete, model, 0, NOTHING), CallsBefore(model, turn);
            if turn == 18 then r == Err(TurnsExhausted)
            else match model(turn)
                 case None => r == Err(LlmFailed)
                 case Some(calls) =>
                   var ops := Script(files, complete, before + calls);
                   && (calls == [] ==> r == Err(StoppedWithoutTool))
                   && (Fits(ops) && Summary(calls).Some? ==> r == Ok(Bundle(ops, Summary(calls).value)))
                   && (forall i | 0 <= i < |calls| && Overruns(files, complete, before, calls, i) ::
                         r == Err(Overrun(Script(files, complete, before + calls[..i + 1]))))
  {
    var st := RunComesTo(files, complete, model, turn);
    if turn < 18 && model(turn).Some? && model(turn).value != [] {
      CallsAreScripted(files, complete, CallsBefore(model, turn), st, model(turn).value, None);
    }
  }

  // ---------- every proper proposal is staged ----------

  predicate Proposes(call: Call, path: string) {
    (call.ProposeNew? && call.path == Some(path)) || (call.ProposePatch? && call.path == Some(path))
  }

  /** Among the calls of a run: a new page is not there and not proposed before, a changed one is there
      or proposed before as new; and paths and sizes are as they should be. */
  predicate IsInOrder(files: Files, calls: seq<Call>, i: nat)
    requires i < |calls|
  {
    match calls[i]
    case ProposeNew(Some(path), Some(content)) =>
      && MayBeProposed(path) && IsSafe(path) && |content| <= 50 * 1024
      && Resolve(path) !in files && forall j | 0 <= j < i :: !Proposes(calls[j], path)
    case ProposePatch(Some(path), Some(content)) =>
      && MayBeProposed(path) && |content| <= 50 * 1024
      && ((IsSafe(path) && Resolve(path) in files)
          || exists j :: 0 <= j < i && calls[j].ProposeNew? && calls[j].path == Some(path))
    case _ => false
  }

  /** One operation for each call, the one it asks for. */
  predicate OneEach(complete: Completer, calls: seq<Call>, ops: seq<Op>) {
    |ops| == |calls| && forall i | 0 <= i < |calls| :: Asked(complete, i, calls[i]) == [ops[i]]
  }

  lemma InOrderIsProper(files: Files, complete: Completer, calls: seq<Call>, ops: seq<Op>, call: Call)
    requires OneEach(complete, calls, ops) && IsInOrder(files, calls + [call], |calls|)
    ensures IsProper(files, ops, call)
  {
    var all := calls + [call];
    forall op | op in ops
      ensures exists j :: 0 <= j < |calls| && Asked(complete, j, calls[j]) == [op]
    {
      var j :| 0 <= j < |ops| && ops[j] == op;
    }
    assert forall j | 0 <= j < |calls| :: all[j] == calls[j];
    if call.ProposePatch? {
      if j :| 0 <= j < |calls| && calls[j].ProposeNew? && calls[j].path == call.path {
        assert Asked(complete, j, calls[j]) == [ops[j]] && ops[j] in ops;
      }
    }
  }

  lemma OneEachMore(complete: Completer, calls: seq<Call>, ops: seq<Op>, call: Call)
    requires OneEach(complete, calls, ops) && |Asked(complete, |calls|, call)| == 1
    ensures OneEach(complete, calls + [call], ops + Asked(complete, |calls|, call))
  {
  }

  lemma OrderOfFirst(files: Files, calls: seq<Call>, n: nat, i: nat)
    requires i < n <= |calls| && IsInOrder(files, calls, i)
    ensures IsInOrder(files, calls[..n], i)
  {
  }

  /** Orderly proposals are all taken. */
  lemma {:induction false} ScriptOfOrderly(files: Files, complete: Completer, calls: seq<Call>, n: nat)
    requires n <= |calls| && forall i | 0 <= i < |calls| :: IsInOrder(files, calls, i)
    ensures OneEach(complete, calls[..n], Script(files, complete, calls[..n]))
  {
    if n > 0 {
      var ops, call := Script(files, complete, calls[..n - 1]), calls[n - 1];
      ScriptOfOrderly(files, complete, calls, n - 1);
      OrderOfFirst(files, calls, n, n - 1);
      TakeNext(calls, n - 1);
      InOrderIsProper(files, complete, calls[..n - 1], ops, call);
      ScriptStep(files, complete, calls[..n - 1], call);
      OneEachMore(complete, calls[..n - 1], ops, call);
    }
  }

  lemma SameOps(complete: Completer, calls: seq<Call>, a: seq<Op>, b: seq<Op>)
    requires OneEach(complete, calls, a) && OneEach(complete, calls, b)
    ensures a == b
  {
    forall i | 0 <= i < |a|
      ensures a[i] == b[i]
    {
      assert [a[i]] == [b[i]];
      assert [a[i]][0] == [b[i]][0];
    }
  }

  /** The turn makes calls, and says nothing of being done. */
  predicate IsWork(model: Model, turn: nat) {
    model(turn).Some? && model(turn).value != [] && Summary(model(turn).value).None?
  }

  lemma {:induction false} CallsGrow(model: Model, a: nat, b: nat)
    requires a <= b
    ensures CallsBefore(model, a) <= CallsBefore(model, b)
    decreases b
  {
    if a < b {
      CallsGrow(model, a, b - 1);
    }
  }

  lemma EarlierFit(files: Files, complete: Completer, model: Model, a: nat, b: nat, last: seq<Call>)
    requires a <= b && Fits(Script(files, complete, CallsBefore(model, b) + last))
    ensures Fits(Script(files, complete, CallsBefore(model, a)))
  {
    var all, first := CallsBefore(model, b) + last, CallsBefore(model, a);
    CallsGrow(model, a, b);
    assert all == first + all[|first|..];
    ScriptGrows(files, complete, first, all[|first|..]);
  }

  lemma DoneStagesNothing(files: Files, complete: Completer, calls: seq<Call>, summary: string)
    ensures Script(files, complete, calls + [Done(summary)]) == Script(files, complete, calls)
    ensures Summary(calls + [Done(summary)]) == Some(summary)
  {
    ScriptStep(files, complete, calls, Done(summary));
    LastValueAppend(SummaryOf, calls, Done(summary));
  }

  /** What is said before the last turn takes the run there, if all that is proposed fits. */
  lemma WorkGoesOn(files: Files, complete: Completer, model: Model, turn: nat, last: seq<Call>)
    requires forall k | 0 <= k < turn :: IsWork(model, k)
    requires Fits(Script(files, complete, CallsBefore(model, turn) + last))
    ensures forall k | 0 <= k < turn :: GoesOn(files, complete, model, k)
  {
    forall k | 0 <= k < turn
      ensures GoesOn(files, complete, model, k)
    {
      assert IsWork(model, k);
      EarlierFit(files, complete, model, k + 1, turn, last);
    }
  }

  lemma OrderlyScript(files: Files, complete: Completer, calls: seq<Call>, ops: seq<Op>)
    requires (forall i | 0 <= i < |calls| :: IsInOrder(files, calls, i)) && OneEach(complete, calls, ops)
    ensures Script(files, complete, calls) == ops
  {
    assert calls[..|calls|] == calls;
    ScriptOfOrderly(files, complete, calls, |calls|);
    SameOps(complete, calls, Script(files, complete, calls), ops);
  }

  /** Every proposal in order is staged, whatever turn it is made in: a model that makes such proposals
      over at most 18 turns, at most 20 in all and with at most 500 KB to write, and then says that it
      is done, gets one operation for each, in the order it made them. */
  lemma EveryProposalIsStaged(
      files: Files, complete: Completer, model: Model, turn: nat, last: seq<Call>, summary: string, ops: seq<Op>)
    requires turn < 18 && (forall k | 0 <= k < turn :: IsWork(model, k)) && model(turn) == Some(last + [Done(summary)])
    requires var calls := CallsBefore(model, turn) + last;
             (forall i | 0 <= i < |calls| :: IsInOrder(files, calls, i)) && OneEach(complete, calls, ops)
    requires |ops| <= 20 && TotalSize(ops) <= 500 * 1024
    ensures RunTurns(files, complete, model, 0, NOTHING) == Ok(Bundle(ops, summary))
  {
    var before := CallsBefore(model, turn);
    OrderlyScript(files, complete, before + last, ops);
    WorkGoesOn(files, complete, model, turn, last);
    AppendAssociates(before, last, [Done(summary)]);
    DoneStagesNothing(files, complete, before + last, summary);
    LastValueAppend(SummaryOf, last, Done(summary));
    RunIsItsProposals(files, complete, model, turn);
  }
}
