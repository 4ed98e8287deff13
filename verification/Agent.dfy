/** The ingest agent: tool calls stage operations under budgets until the model says it is done. */
module Agent {
  import opened Paths
  import opened Seqs
  import opened Text
  import opened Validator
  import opened Wiki
  import opened Wrappers
  import Frontmatter

  const MAX_TURNS: nat := 18
  const MAX_OPS: nat := 20
  const MAX_BUNDLE_BYTES: nat := 500 * 1024
  const MAX_PAGE_BYTES: nat := 50 * 1024

  /** One tool call; an argument is absent when the model left it out or it is no string. `Look`
      is any call that stages nothing: searching, listing, reading, or an unknown tool. */
  datatype Call =
    | Done(summary: string)
    | ProposeNew(path: Option<string>, content: Option<string>)
    | ProposePatch(path: Option<string>, newContent: Option<string>)
    | Look

  datatype Staged = Staged(ops: seq<Op>, createdPaths: set<string>, patchedPaths: set<string>, bytes: nat)

  const NOTHING := Staged([], {}, {}, 0)

  /** What a run hands over to be validated and committed. */
  datatype Bundle = Bundle(operations: seq<Op>, summary: string)

  datatype AgentError = LlmFailed | StoppedWithoutTool | OpBudget | ByteBudget | TurnsExhausted

  /** The guide is protected under its own name only: the path is not resolved first. */
  predicate IsAllowed(path: string) {
    && !StartsWith(path, "/") && FindSub(path, "..").None?
    && path != GUIDE
    && IsMarkdown(path)
  }

  /** The path may be written, and the content as given is in size. */
  predicate IsProposal(path: string, content: string) {
    IsAllowed(path) && |content| <= MAX_PAGE_BYTES
  }

  /** A page is new if nothing staged has its path, as given, and reading it finds no file. */
  predicate IsNew(files: Files, st: Staged, path: string) {
    path !in st.createdPaths && path !in st.patchedPaths && PageAt(files, path) == Ok(None)
  }

  predicate IsThere(files: Files, path: string) {
    PageAt(files, path).Ok? && PageAt(files, path).value.Some?
  }

  predicate IsKnown(files: Files, st: Staged, path: string) {
    path in st.createdPaths || IsThere(files, path)
  }

  /** What completes the frontmatter of a new page: any function of the content and of how many
      operations were staged before, since ids and timestamps differ from page to page. */
  type Completer = (nat, string) -> string

  /** The lines for those of the three fields that the frontmatter does not mention. */
  function Missing(fm: string, id: string, now: string): string {
    (if FindSub(fm, "id:").Some? then "" else "\nid: " + id)
    + (if FindSub(fm, "created_at:").Some? then "" else "\ncreated_at: " + now)
    + (if FindSub(fm, "updated_at:").Some? then "" else "\nupdated_at: " + now)
  }

  /** The completion in use, for the id and the time it draws: missing fields go to the end of the
      frontmatter, and a page without any gets one. */
  function Completed(id: string, now: string, content: string): string {
    var t := TrimStart(content);
    if !StartsWith(t, "---") then
      "---\nid: " + id + "\ncreated_at: " + now + "\nupdated_at: " + now + "\n---\n" + content
    else match Frontmatter.Cut(t, "---", "\n---")
         case None => content
         case Some((fm, rest)) => "---" + (fm + Missing(fm, id, now) + rest)
  }

  function StageNew(files: Files, complete: Completer, st: Staged, path: string, content: string): Staged {
    if IsProposal(path, content) && IsNew(files, st, path) then
      var full := complete(|st.ops|, content);
      Staged(st.ops + [Create(path, full)], st.createdPaths + {path}, st.patchedPaths, st.bytes + |full|)
    else st
  }

  function StagePatch(files: Files, st: Staged, path: string, content: string): Staged {
    if IsProposal(path, content) && IsKnown(files, st, path) then
      Staged(st.ops + [Patch(path, content)], st.createdPaths, st.patchedPaths + {path}, st.bytes + |content|)
    else st
  }

  /** What one call stages; a call at fault stages nothing. */
  function Stage(files: Files, complete: Completer, st: Staged, call: Call): Staged {
    match call
    case ProposeNew(Some(path), Some(content)) => StageNew(files, complete, st, path, content)
    case ProposePatch(Some(path), Some(content)) => StagePatch(files, st, path, content)
    case _ => st
  }

  /** The calls of one turn, in order; the budgets are checked after each. */
  function RunCalls(files: Files, complete: Completer, st: Staged, calls: seq<Call>, done: Option<string>)
    : Result<(Staged, Option<string>), AgentError>
    decreases |calls|
  {
    if calls == [] then Ok((st, done))
    else if calls[0].Done? then RunCalls(files, complete, st, calls[1..], Some(calls[0].summary))
    else
      var next := Stage(files, complete, st, calls[0]);
      if |next.ops| > MAX_OPS then Err(OpBudget)
      else if next.bytes > MAX_BUNDLE_BYTES then Err(ByteBudget)
      else RunCalls(files, complete, next, calls[1..], done)
  }

  /** What the model answers on each turn: the calls it makes, or nothing when the call fails. */
  type Model = nat -> Option<seq<Call>>

  function RunTurn(files: Files, complete: Completer, st: Staged, reply: Option<seq<Call>>)
    : Result<(Staged, Option<string>), AgentError>
  {
    match reply
    case None => Err(LlmFailed)
    case Some(calls) => if calls == [] then Err(StoppedWithoutTool) else RunCalls(files, complete, st, calls, None)
  }

  function RunTurns(files: Files, complete: Completer, model: Model, turn: nat, st: Staged): Result<Bundle, AgentError>
    decreases MAX_TURNS - turn
  {
    if turn >= MAX_TURNS then Err(TurnsExhausted)
    else match RunTurn(files, complete, st, model(turn))
         case Err(e) => Err(e)
         case Ok((next, Some(summary))) => Ok(Bundle(next.ops, summary))
         case Ok((next, None)) => RunTurns(files, complete, model, turn + 1, next)
  }

  // ---------- the agent as it runs ----------

  class StagedOps {
    var ops: seq<Op>
    var createdPaths: set<string>
    var patchedPaths: set<string>
    var bytes: nat

    function View(): Staged
      reads this
    {
      Staged(ops, createdPaths, patchedPaths, bytes)
    }

    constructor ()
      ensures View() == NOTHING
    {
      ops, createdPaths, patchedPaths, bytes := [], {}, {}, 0;
    }

    method ProposePage(files: Files, complete: Completer, path: string, content: string)
      modifies this
      ensures View() == StageNew(files, complete, old(View()), path, content)
    {
      if !IsAllowed(path) || |content| > MAX_PAGE_BYTES {
        return;
      }
      if path in createdPaths || path in patchedPaths || PageAt(files, path) != Ok(None) {
        return;
      }
      var full := complete(|ops|, content);
      bytes := bytes + |full|;
      createdPaths := createdPaths + {path};
      ops := ops + [Create(path, full)];
    }

    method ProposeChange(files: Files, path: string, content: string)
      modifies this
      ensures View() == StagePatch(files, old(View()), path, content)
    {
      if !IsAllowed(path) || |content| > MAX_PAGE_BYTES {
        return;
      }
      if path !in createdPaths && !IsThere(files, path) {
        return;
      }
      bytes := bytes + |content|;
      patchedPaths := patchedPaths + {path};
      ops := ops + [Patch(path, content)];
    }

    method ExecuteTool(files: Files, complete: Completer, call: Call)
      modifies this
      ensures View() == Stage(files, complete, old(View()), call)
    {
      match call {
        case ProposeNew(Some(path), Some(content)) => ProposePage(files, complete, path, content);
        case ProposePatch(Some(path), Some(content)) => ProposeChange(files, path, content);
        case _ =>
      }
    }
  }

  method ExecuteCalls(files: Files, complete: Completer, calls: seq<Call>, staged: StagedOps)
    returns (r: Result<Option<string>, AgentError>)
    modifies staged
    ensures match RunCalls(files, complete, old(staged.View()), calls, None)
            case Err(e) => r == Err(e)
            case Ok((next, done)) => r == Ok(done) && staged.View() == next
  {
    var done: Option<string> := None;
    for i := 0 to |calls|
      invariant RunCalls(files, complete, staged.View(), calls[i..], done)
             == RunCalls(files, complete, old(staged.View()), calls, None)
    {
      assert calls[i..][1..] == calls[i + 1..];
      if calls[i].Done? {
        done := Some(calls[i].summary);
        continue;
      }
      staged.ExecuteTool(files, complete, calls[i]);
      if |staged.ops| > MAX_OPS {
        return Err(OpBudget);
      }
      if staged.bytes > MAX_BUNDLE_BYTES {
        return Err(ByteBudget);
      }
    }
    r := Ok(done);
  }

  method Turn(files: Files, complete: Completer, reply: Option<seq<Call>>, staged: StagedOps)
    returns (r: Result<Option<string>, AgentError>)
    modifies staged
    ensures match RunTurn(files, complete, old(staged.View()), reply)
            case Err(e) => r == Err(e)
            case Ok((next, done)) => r == Ok(done) && staged.View() == next
  {
    match reply {
      case None => r := Err(LlmFailed);
      case Some(calls) =>
        if calls == [] {
          return Err(StoppedWithoutTool);
        }
        r := ExecuteCalls(files, complete, calls, staged);
    }
  }

  method RunAgent(files: Files, complete: Completer, model: Model)
    returns (r: Result<Bundle, AgentError>)
    ensures r == RunTurns(files, complete, model, 0, NOTHING)
  {
    var staged := new StagedOps();
    ghost var result := RunTurns(files, complete, model, 0, NOTHING);
    for turn := 0 to MAX_TURNS
      invariant fresh(staged)
      invariant RunTurns(files, complete, model, turn, staged.View()) == result
    {
      var outcome := Turn(files, complete, model(turn), staged);
      if outcome.Err? {
        return Err(outcome.error);
      }
      if outcome.value.Some? {
        return Ok(Bundle(staged.ops, outcome.value.value));
      }
    }
    r := Err(TurnsExhausted);
  }

  // ---------- what is staged ----------

  predicate CreatedBefore(ops: seq<Op>, i: nat, path: string)
    requires i <= |ops|
  {
    exists j :: 0 <= j < i && ops[j].Create? && ops[j].path == path
  }

  /** An operation in its place: it writes a path that may be written, a create one that names no
      file and no earlier operation has, a patch one that names a file or an earlier create has.
      Among themselves operations are told apart by their paths as given. */
  predicate InPlace(may: string -> bool, files: Files, ops: seq<Op>, i: nat)
    requires i < |ops|
  {
    && Writes(ops[i]) && may(ops[i].path)
    && (ops[i].Create? ==>
          && Resolve(ops[i].path) !in files
          && forall j | 0 <= j < i :: Writes(ops[j]) && ops[j].path != ops[i].path)
    && (ops[i].Patch? ==>
          && |ops[i].content| <= PAGE_CAP
          && (Resolve(ops[i].path) in files || CreatedBefore(ops, i, ops[i].path)))
  }

  predicate InOrder(may: string -> bool, files: Files, ops: seq<Op>) {
    forall i | 0 <= i < |ops| :: InPlace(may, files, ops, i)
  }

  predicate MayWrite(path: string) {
    IsAllowed(path) && IsSafe(path)
  }

  predicate EditScript(files: Files, ops: seq<Op>) {
    InOrder(MayWrite, files, ops)
  }

  /** The bookkeeping beside the operations matches them. */
  predicate Kept(st: Staged) {
    && st.bytes == TotalSize(st.ops)
    && (forall op | op in st.ops :: Writes(op))
    && st.createdPaths == (set op | op in st.ops && op.Create? :: op.path)
    && st.patchedPaths == (set op | op in st.ops && op.Patch? :: op.path)
  }

  lemma OneMore(may: string -> bool, files: Files, ops: seq<Op>, op: Op)
    requires InOrder(may, files, ops) && InPlace(may, files, ops + [op], |ops|)
    ensures InOrder(may, files, ops + [op])
  {
    var more := ops + [op];
    forall i | 0 <= i < |ops|
      ensures InPlace(may, files, more, i)
    {
      assert InPlace(may, files, ops, i) && more[i] == ops[i];
      if ops[i].Patch? && CreatedBefore(ops, i, ops[i].path) {
        var j :| 0 <= j < i && ops[j].Create? && ops[j].path == ops[i].path;
        assert more[j] == ops[j];
      }
    }
  }

  lemma OneMoreCreate(may: string -> bool, files: Files, st: Staged, path: string, content: string)
    requires InOrder(may, files, st.ops) && Kept(st) && may(path)
    requires Resolve(path) !in files && path !in st.createdPaths && path !in st.patchedPaths
    ensures InOrder(may, files, st.ops + [Create(path, content)])
  {
    var more := st.ops + [Create(path, content)];
    forall j | 0 <= j < |st.ops|
      ensures Writes(more[j]) && more[j].path != path
    {
      assert more[j] == st.ops[j] && st.ops[j] in st.ops;
    }
    OneMore(may, files, st.ops, Create(path, content));
  }

  lemma OneMorePatch(may: string -> bool, files: Files, st: Staged, path: string, content: string)
    requires InOrder(may, files, st.ops) && Kept(st) && may(path)
    requires |content| <= PAGE_CAP && (Resolve(path) in files || path in st.createdPaths)
    ensures InOrder(may, files, st.ops + [Patch(path, content)])
  {
    var more := st.ops + [Patch(path, content)];
    if Resolve(path) !in files {
      var made :| made in st.ops && made.Create? && made.path == path;
      var j :| 0 <= j < |st.ops| && st.ops[j] == made;
      assert more[j] == made;
      assert CreatedBefore(more, |st.ops|, path);
    }
    OneMore(may, files, st.ops, Patch(path, content));
  }

  lemma CreatedPathsMayBeWritten(may: string -> bool, files: Files, st: Staged, path: string)
    requires InOrder(may, files, st.ops) && Kept(st) && path in st.createdPaths
    ensures may(path)
  {
    var made :| made in st.ops && made.Create? && made.path == path;
    var j :| 0 <= j < |st.ops| && st.ops[j] == made;
    assert InPlace(may, files, st.ops, j);
  }

  /** Every call keeps the script in order... */
  lemma StageKeepsOrder(files: Files, complete: Completer, st: Staged, call: Call)
    requires EditScript(files, st.ops) && Kept(st)
    ensures EditScript(files, Stage(files, complete, st, call).ops)
  {
    match call
    case ProposeNew(Some(path), Some(content)) =>
      if IsProposal(path, content) && IsNew(files, st, path) {
        OneMoreCreate(MayWrite, files, st, path, complete(|st.ops|, content));
      }
    case ProposePatch(Some(path), Some(content)) =>
      if IsProposal(path, content) && IsKnown(files, st, path) {
        if path in st.createdPaths {
          CreatedPathsMayBeWritten(MayWrite, files, st, path);
        }
        OneMorePatch(MayWrite, files, st, path, content);
      }
    case _ =>
  }

  lemma KeptMore(st: Staged, op: Op)
    requires Kept(st) && Writes(op)
    ensures Kept(Staged(st.ops + [op], if op.Create? then st.createdPaths + {op.path} else st.createdPaths,
                        if op.Patch? then st.patchedPaths + {op.path} else st.patchedPaths, st.bytes + Size(op)))
  {
    TotalSizeConcat(st.ops, [op]);
    assert TotalSize([op]) == Size(op);
  }

  /** ...and the books straight. */
  lemma StageKeepsBooks(files: Files, complete: Completer, st: Staged, call: Call)
    requires Kept(st)
    ensures Kept(Stage(files, complete, st, call))
  {
    match call
    case ProposeNew(Some(path), Some(content)) => KeptMore(st, Create(path, complete(|st.ops|, content)));
    case ProposePatch(Some(path), Some(content)) => KeptMore(st, Patch(path, content));
    case _ =>
  }

  lemma StageKeeps(files: Files, complete: Completer, st: Staged, call: Call)
    requires EditScript(files, st.ops) && Kept(st)
    ensures EditScript(files, Stage(files, complete, st, call).ops) && Kept(Stage(files, complete, st, call))
  {
    StageKeepsOrder(files, complete, st, call);
    StageKeepsBooks(files, complete, st, call);
  }

  predicate InBudget(files: Files, st: Staged) {
    EditScript(files, st.ops) && Kept(st) && |st.ops| <= MAX_OPS && st.bytes <= MAX_BUNDLE_BYTES
  }

  lemma {:induction false} CallsKeep(files: Files, complete: Completer, st: Staged, calls: seq<Call>, done: Option<string>)
    requires InBudget(files, st)
    ensures var r := RunCalls(files, complete, st, calls, done); r.Ok? ==> InBudget(files, r.value.0)
    decreases |calls|
  {
    if calls != [] {
      if calls[0].Done? {
        CallsKeep(files, complete, st, calls[1..], Some(calls[0].summary));
      } else {
        var next := Stage(files, complete, st, calls[0]);
        StageKeeps(files, complete, st, calls[0]);
        if InBudget(files, next) {
          CallsKeep(files, complete, next, calls[1..], done);
        }
      }
    }
  }

  /** An edit script within both budgets, the second of which is the repository's cap. */
  predicate IsBundle(files: Files, ops: seq<Op>) {
    EditScript(files, ops) && |ops| <= MAX_OPS && TotalSize(ops) <= BUNDLE_CAP
  }

  lemma {:induction false} TurnsKeep(files: Files, complete: Completer, model: Model, turn: nat, st: Staged)
    requires InBudget(files, st)
    ensures var r := RunTurns(files, complete, model, turn, st); r.Ok? ==> IsBundle(files, r.value.operations)
    decreases MAX_TURNS - turn
  {
    if turn < MAX_TURNS {
      if model(turn).Some? {
        CallsKeep(files, complete, st, model(turn).value, None);
      }
      match RunTurn(files, complete, st, model(turn))
      case Err(_) =>
      case Ok((next, Some(_))) =>
      case Ok((next, None)) => TurnsKeep(files, complete, model, turn + 1, next);
    }
  }

  /** Whatever the model does, a bundle it gets returned is an edit script within both budgets. */
  lemma BundleIsEditScript(files: Files, complete: Completer, model: Model)
    ensures var r := RunTurns(files, complete, model, 0, NOTHING); r.Ok? ==> IsBundle(files, r.value.operations)
  {
    TurnsKeep(files, complete, model, 0, NOTHING);
  }

  // ---------- what an edit script does ----------

  /** It meets what the validator and link closure ask of a staged bundle. */
  lemma ScriptsAreStaged(files: Files, ops: seq<Op>)
    requires EditScript(files, ops)
    ensures DeletesNothing(ops) && WritesMarkdown(ops)
  {
    forall op | op in ops
      ensures !op.Delete? && (Writes(op) ==> IsMarkdown(op.path))
    {
      var i :| 0 <= i < |ops| && ops[i] == op;
      assert InPlace(MayWrite, files, ops, i);
    }
  }

  predicate Creates(ops: seq<Op>, path: string) {
    exists op :: op in ops && op.Create? && Resolve(op.path) == path
  }

  /** The files after it are the old ones and exactly those its creates name, none of which was
      there. */
  lemma ScriptAddsWhatItCreates(files: Files, ops: seq<Op>)
    requires EditScript(files, ops)
    ensures Apply(files, ops).Keys == files.Keys + (set op | op in ops && op.Create? :: Resolve(op.path))
    ensures forall op | op in ops && op.Create? :: Resolve(op.path) !in files
  {
    forall p
      ensures p in Apply(files, ops) <==> p in files || Creates(ops, p)
    {
      LastOpDecides(files, ops, p);
      LastOpIsWrite(files, ops, p);
    }
    forall op | op in ops && op.Create?
      ensures Resolve(op.path) !in files
    {
      var i :| 0 <= i < |ops| && ops[i] == op;
      assert InPlace(MayWrite, files, ops, i);
    }
  }

  lemma LastOpIsWrite(files: Files, ops: seq<Op>, path: string)
    requires EditScript(files, ops)
    ensures var last := LastOp(ops, path);
            && (last.Some? ==> Writes(last.value) && IsAllowed(last.value.path) && (path in files || Creates(ops, path)))
            && (last.None? ==> !Creates(ops, path))
  {
    if LastOp(ops, path).Some? {
      var op := LastOp(ops, path).value;
      var i :| 0 <= i < |ops| && ops[i] == op;
      assert InPlace(MayWrite, files, ops, i);
      if op.Patch? && path !in files {
        var j :| 0 <= j < i && ops[j].Create? && ops[j].path == op.path;
        assert ops[j] in ops;
      }
    }
  }

  /** An operation on the guide: none has the guide's own path, so it is spelled otherwise. */
  predicate Disguised(op: Op) {
    Writes(op) && op.path != GUIDE && Resolve(op.path) == GUIDE
  }

  /** The guide is changed if and only if the last operation that names it, which is a disguised
      one, writes something else. */
  lemma GuideIsKeptExactly(files: Files, ops: seq<Op>)
    requires EditScript(files, ops)
    ensures LastOp(ops, GUIDE).Some? <==> exists op :: op in ops && Disguised(op)
    ensures LastOp(ops, GUIDE).Some? ==> Disguised(LastOp(ops, GUIDE).value)
    ensures Content(Apply(files, ops), GUIDE) != Content(files, GUIDE) <==>
              LastOp(ops, GUIDE).Some? && Content(files, GUIDE) != Some(LastOp(ops, GUIDE).value.content)
  {
    LastOpDecides(files, ops, GUIDE);
    LastOpIsWrite(files, ops, GUIDE);
  }

  /** The repository refuses such a bundle exactly when a created page outgrew the page cap once
      its frontmatter had been completed: the size was checked before that. */
  lemma RefusedExactly(files: Files, ops: seq<Op>)
    requires EditScript(files, ops) && TotalSize(ops) <= BUNDLE_CAP
    ensures BundleError(ops).Some? <==> exists op :: op in ops && op.Create? && |op.content| > PAGE_CAP
  {
    forall op | op in ops
      ensures OpError(op).Some? <==> op.Create? && |op.content| > PAGE_CAP
    {
      var i :| 0 <= i < |ops| && ops[i] == op;
      assert InPlace(MayWrite, files, ops, i);
    }
    RefusedForSome(ops);
  }

  /** A model that makes one call and is done. */
  function OneCall(call: Call): Model {
    _ => Some([call, Done("")])
  }

  lemma OneCallRuns(files: Files, complete: Completer, call: Call)
    requires !call.Done?
    requires var next := Stage(files, complete, NOTHING, call); |next.ops| <= MAX_OPS && next.bytes <= MAX_BUNDLE_BYTES
    ensures RunTurns(files, complete, OneCall(call), 0, NOTHING) ==
              Ok(Bundle(Stage(files, complete, NOTHING, call).ops, ""))
  {
    var calls, next := [call, Done("")], Stage(files, complete, NOTHING, call);
    assert calls[1..] == [Done("")] && calls[1..][1..] == [];
    assert RunCalls(files, complete, next, calls[1..], None) == Ok((next, Some("")));
    assert RunTurn(files, complete, NOTHING, OneCall(call)(0)) == Ok((next, Some("")));
  }

  lemma NewPageStaged(files: Files, complete: Completer, st: Staged, path: string, content: string)
    requires IsProposal(path, content) && IsNew(files, st, path)
    ensures var next := StageNew(files, complete, st, path, content);
            && next.ops == st.ops + [Create(path, complete(|st.ops|, content))]
            && next.bytes == st.bytes + |complete(|st.ops|, content)|
  {
  }

  lemma LargePageIsRefused(path: string, content: string)
    requires |content| > PAGE_CAP
    ensures BundleError([Create(path, content)]) == Some(PageTooLarge)
  {
    assert OpError(Create(path, content)) == Some(PageTooLarge);
  }

  lemma OneProposalRuns(files: Files, complete: Completer, path: string, content: string)
    requires IsProposal(path, content) && IsNew(files, NOTHING, path)
    requires |complete(0, content)| <= MAX_BUNDLE_BYTES
    ensures RunTurns(files, complete, OneCall(ProposeNew(Some(path), Some(content))), 0, NOTHING) ==
              Ok(Bundle([Create(path, complete(0, content))], ""))
  {
    var call := ProposeNew(Some(path), Some(content));
    NewPageStaged(files, complete, NOTHING, path, content);
    AppendEmpty([Create(path, complete(0, content))]);
    assert Stage(files, complete, NOTHING, call) == StageNew(files, complete, NOTHING, path, content);
    OneCallRuns(files, complete, call);
  }

  lemma OnePatchRuns(files: Files, complete: Completer, path: string, content: string)
    requires IsProposal(path, content) && IsThere(files, path)
    ensures RunTurns(files, complete, OneCall(ProposePatch(Some(path), Some(content))), 0, NOTHING) ==
              Ok(Bundle([Patch(path, content)], ""))
  {
    var call := ProposePatch(Some(path), Some(content));
    AppendEmpty([Patch(path, content)]);
    assert Stage(files, complete, NOTHING, call) == StagePatch(files, NOTHING, path, content);
    OneCallRuns(files, complete, call);
  }

  /** It does happen: when completion takes a proposed page over the cap, the model that proposes it
      and is done gets its bundle, and the repository refuses it. */
  lemma OutgrownPageIsRefused(files: Files, complete: Completer, path: string, content: string)
    requires IsProposal(path, content) && IsNew(files, NOTHING, path)
    requires PAGE_CAP < |complete(0, content)| <= MAX_BUNDLE_BYTES
    ensures var r := RunTurns(files, complete, OneCall(ProposeNew(Some(path), Some(content))), 0, NOTHING);
            && r == Ok(Bundle([Create(path, complete(0, content))], ""))
            && BundleError(r.value.operations) == Some(PageTooLarge)
  {
    OneProposalRuns(files, complete, path, content);
    LargePageIsRefused(path, complete(0, content));
  }

  /** How much the completion in use adds: the fields that are missing, or a frontmatter of its
      own. */
  lemma CompletionAdds(id: string, now: string, content: string)
    ensures var t, full := TrimStart(content), Completed(id, now, content);
            if !StartsWith(t, "---") then |full| == |content| + |id| + 2 * |now| + 39
            else match Frontmatter.Cut(t, "---", "\n---")
                 case None => full == content
                 case Some((fm, _)) =>
                   |full| == |t| + (if FindSub(fm, "id:").Some? then 0 else 5 + |id|)
                             + (if FindSub(fm, "created_at:").Some? then 0 else 13 + |now|)
                             + (if FindSub(fm, "updated_at:").Some? then 0 else 13 + |now|)
  {
    var t := TrimStart(content);
    if StartsWith(t, "---") && Frontmatter.Cut(t, "---", "\n---").Some? {
      Frontmatter.PartsOfCut(t, "---", "\n---");
    }
  }

  // ---------- runs ----------

  /** One ingest, by whatever model, or one lint pass. */
  datatype Pass = Ingest(complete: Completer, model: Model) | Lint(report: string)

  function PassStep(files: Files, pass: Pass): Files {
    match pass
    case Lint(report) => CommitStep(files, Commit.Lint(report))
    case Ingest(complete, model) =>
      match RunTurns(files, complete, model, 0, NOTHING)
      case Err(_) => files
      case Ok(bundle) => CommitStep(files, Distill(bundle.operations))
  }

  lemma PassStaysNearlyClosed(files: Files, pass: Pass)
    requires OnDisk(files) && NearlyClosed(files)
    ensures OnDisk(PassStep(files, pass)) && NearlyClosed(PassStep(files, pass))
  {
    match pass
    case Lint(report) => StepKeepsNearlyClosed(files, Commit.Lint(report));
    case Ingest(complete, model) =>
      BundleIsEditScript(files, complete, model);
      match RunTurns(files, complete, model, 0, NOTHING)
      case Err(_) =>
      case Ok(bundle) =>
        ScriptsAreStaged(files, bundle.operations);
        StepKeepsNearlyClosed(files, Distill(bundle.operations));
  }

  /** Link closure, end to end: whatever the models do, from a wiki with only the bot's own pages
      no run of ingests and lint passes leaves another page without a title or a kind, or with a
      link to a page that is not there, except a link spelled as no page is listed. */
  lemma {:induction false} AgentsKeepClosed(seed: Files, run: seq<Pass>)
    requires OnDisk(seed) && forall p | p in Pages(seed) :: IsSystem(p)
    ensures var files := FoldLeft(PassStep, seed, run);
            && OnDisk(files) && NearlyClosed(files)
            && (Closed(files) <==> forall p | p in Pages(files) && !IsSystem(p) :: !LinksOddly(files[p]))
    decreases |run|
  {
    if run != [] {
      var n := |run| - 1;
      AgentsKeepClosed(seed, run[..n]);
      FoldStep(PassStep, seed, run, n);
      assert run[..n + 1] == run;
      PassStaysNearlyClosed(FoldLeft(PassStep, seed, run[..n]), run[n]);
    }
    ClosedUnlessOdd(FoldLeft(PassStep, seed, run));
  }

  // ---------- models that use listed names ----------

  predicate IsPlainCall(call: Call) {
    call.ProposeNew? && call.path.Some? ==> !IsOdd(call.path.value)
  }

  /** The model proposes new pages under the names they will be listed by. */
  ghost predicate IsPlain(model: Model) {
    forall turn: nat, call | model(turn).Some? && call in model(turn).value :: IsPlainCall(call)
  }

  predicate CreatesPlain(ops: seq<Op>) {
    forall op | op in ops && op.Create? :: !IsOdd(op.path)
  }

  lemma {:induction false} CallsCreatePlain(
      files: Files, complete: Completer, st: Staged, calls: seq<Call>, done: Option<string>)
    requires CreatesPlain(st.ops) && forall call | call in calls :: IsPlainCall(call)
    ensures var r := RunCalls(files, complete, st, calls, done); r.Ok? ==> CreatesPlain(r.value.0.ops)
    decreases |calls|
  {
    if calls != [] {
      assert calls[0] in calls;
      if calls[0].Done? {
        CallsCreatePlain(files, complete, st, calls[1..], Some(calls[0].summary));
      } else {
        StageCreatesPlain(files, complete, st, calls[0]);
        CallsCreatePlain(files, complete, Stage(files, complete, st, calls[0]), calls[1..], done);
      }
    }
  }

  lemma StageCreatesPlain(files: Files, complete: Completer, st: Staged, call: Call)
    requires CreatesPlain(st.ops) && IsPlainCall(call)
    ensures CreatesPlain(Stage(files, complete, st, call).ops)
  {
  }

  lemma {:induction false} TurnsCreatePlain(files: Files, complete: Completer, model: Model, turn: nat, st: Staged)
    requires CreatesPlain(st.ops) && IsPlain(model)
    ensures var r := RunTurns(files, complete, model, turn, st); r.Ok? ==> CreatesPlain(r.value.operations)
    decreases MAX_TURNS - turn
  {
    if turn < MAX_TURNS {
      if model(turn).Some? {
        CallsCreatePlain(files, complete, st, model(turn).value, None);
      }
      match RunTurn(files, complete, st, model(turn))
      case Err(_) =>
      case Ok((next, Some(_))) =>
      case Ok((next, None)) => TurnsCreatePlain(files, complete, model, turn + 1, next);
    }
  }

  lemma PlainPassKeepsClosed(files: Files, pass: Pass)
    requires OnDisk(files) && Closed(files) && (pass.Ingest? ==> IsPlain(pass.model))
    ensures Closed(PassStep(files, pass))
  {
    match pass
    case Lint(report) => LintKeepsClosed(files, report);
    case Ingest(complete, model) =>
      BundleIsEditScript(files, complete, model);
      TurnsCreatePlain(files, complete, model, 0, NOTHING);
      match RunTurns(files, complete, model, 0, NOTHING)
      case Err(_) =>
      case Ok(bundle) =>
        ScriptsAreStaged(files, bundle.operations);
        if BundleErrors(files, bundle.operations) == [] {
          CommitKeepsClosedExactly(files, bundle.operations);
        }
  }

  lemma LintKeepsClosed(files: Files, report: string)
    requires Closed(files)
    ensures Closed(Apply(files, [Patch(LINT, report)]))
  {
    var after := Apply(files, [Patch(LINT, report)]);
    LintChangesNoPage(files, report);
    forall p | p in Pages(after) && !IsSystem(p)
      ensures WellFormed(after[p], Pages(after))
    {
      assert Content(after, p) == Content(files, p);
    }
  }

  /** When the models use listed names for what they create, the wiki is closed after every run. */
  lemma {:induction false} PlainAgentsKeepClosed(seed: Files, run: seq<Pass>)
    requires OnDisk(seed) && forall p | p in Pages(seed) :: IsSystem(p)
    requires forall pass | pass in run && pass.Ingest? :: IsPlain(pass.model)
    ensures Closed(FoldLeft(PassStep, seed, run))
    decreases |run|
  {
    if run != [] {
      var n := |run| - 1;
      PlainAgentsKeepClosed(seed, run[..n]);
      AgentsKeepClosed(seed, run[..n]);
      FoldStep(PassStep, seed, run, n);
      assert run[..n + 1] == run && run[n] in run;
      PlainPassKeepsClosed(FoldLeft(PassStep, seed, run[..n]), run[n]);
    }
  }
}
