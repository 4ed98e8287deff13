/** Gathering context for an answer: pages are loaded under a page budget and a byte budget that
    is spent in characters. */
module Gather {
  import opened Seqs
  import opened Wrappers

  const GATHER_TURNS: nat := 6
  const MAX_PAGES_LOADED: nat := 8
  const MAX_CONTEXT_BYTES: nat := 30_000
  const FLOOR: nat := 1024

  /** How many codes have room in `w` bytes of UTF-8: six bits in every byte but the first, which holds
      seven when it is alone and gives up one and its place mark for each that follows. */
  function Codes(w: nat): nat {
    match w
    case 1 => 0x80
    case 2 => 0x20 * 0x40
    case 3 => 0x10 * 0x40 * 0x40
    case _ => 0x08 * 0x40 * 0x40 * 0x40
  }

  /** Bytes of a character in UTF-8: the fewest that have room for it. */
  function Width(c: char): (w: nat)
    ensures 1 <= w <= 4 && c as int < Codes(w) && (w > 1 ==> Codes(w - 1) <= c as int)
  {
    if c as int < 0x80 then 1 else if c as int < 0x800 then 2 else if c as int < 0x1_0000 then 3 else 4
  }

  function Bytes(s: string): nat {
    if s == "" then 0 else Width(s[0]) + Bytes(s[1..])
  }

  /** Every character takes at most `w` bytes. */
  predicate Within(s: string, w: nat) {
    forall i | 0 <= i < |s| :: Width(s[i]) <= w
  }

  /** The pages the user may read. */
  type Readable = map<string, string>

  /** `Look` is any call that loads nothing. */
  datatype Call = Done | ReadPage(path: string) | Look

  datatype Context = Context(loaded: map<string, string>, totalBytes: nat)

  const EMPTY := Context(map[], 0)

  /** As many characters as bytes are left, but never fewer than the floor. */
  function Allowance(totalBytes: nat): nat {
    var left := if totalBytes < MAX_CONTEXT_BYTES then MAX_CONTEXT_BYTES - totalBytes else 0;
    if left < FLOOR then FLOOR else left
  }

  /** A page is loaded once; reading it again, or a page that is not there, loads nothing. */
  function Load(wiki: Readable, c: Context, call: Call): Context {
    match call
    case ReadPage(path) =>
      if path in wiki && path !in c.loaded then
        var text := Take(wiki[path], Allowance(c.totalBytes));
        Context(c.loaded[path := text], c.totalBytes + Bytes(text))
      else c
    case _ => c
  }

  predicate IsFull(c: Context) {
    |c.loaded| >= MAX_PAGES_LOADED || c.totalBytes >= MAX_CONTEXT_BYTES
  }

  /** The calls of one turn, and whether they end the gathering. */
  function RunCalls(wiki: Readable, c: Context, calls: seq<Call>, done: bool): (Context, bool)
    decreases |calls|
  {
    if calls == [] then (c, done)
    else if calls[0].Done? then RunCalls(wiki, c, calls[1..], true)
    else
      var next := Load(wiki, c, calls[0]);
      if IsFull(next) then (next, true) else RunCalls(wiki, next, calls[1..], done)
  }

  /** What the model answers on each turn, or nothing when the call fails. */
  type Model = nat -> Option<seq<Call>>

  function RunTurns(wiki: Readable, model: Model, turn: nat, c: Context): Option<Context>
    decreases GATHER_TURNS - turn
  {
    if turn >= GATHER_TURNS then Some(c)
    else match model(turn)
         case None => None
         case Some(calls) =>
           if calls == [] then Some(c)
           else
             var (next, done) := RunCalls(wiki, c, calls, false);
             if done then Some(next) else RunTurns(wiki, model, turn + 1, next)
  }

  // ---------- the loops as they run ----------

  class Gatherer {
    var loaded: map<string, string>
    var totalBytes: nat

    function View(): Context
      reads this
    {
      Context(loaded, totalBytes)
    }

    constructor ()
      ensures View() == EMPTY
    {
      loaded, totalBytes := map[], 0;
    }

    method ExecuteTool(wiki: Readable, call: Call)
      modifies this
      ensures View() == Load(wiki, old(View()), call)
    {
      match call {
        case ReadPage(path) =>
          if path in wiki && path !in loaded {
            var left := if totalBytes < MAX_CONTEXT_BYTES then MAX_CONTEXT_BYTES - totalBytes else 0;
            var takeChars := if left < FLOOR then FLOOR else left;
            var truncated := Take(wiki[path], takeChars);
            totalBytes := totalBytes + Bytes(truncated);
            loaded := loaded[path := truncated];
          }
        case _ =>
      }
    }

    method Turn(wiki: Readable, calls: seq<Call>) returns (done: bool)
      modifies this
      ensures (View(), done) == RunCalls(wiki, old(View()), calls, false)
    {
      done := false;
      for i := 0 to |calls|
        invariant RunCalls(wiki, View(), calls[i..], done) == RunCalls(wiki, old(View()), calls, false)
      {
        assert calls[i..][1..] == calls[i + 1..];
        if calls[i].Done? {
          done := true;
          continue;
        }
        ExecuteTool(wiki, calls[i]);
        if |loaded| >= MAX_PAGES_LOADED || totalBytes >= MAX_CONTEXT_BYTES {
          return true;
        }
      }
    }

    /** The agent path: false when the model failed. */
    method GatherPages(wiki: Readable, model: Model) returns (ok: bool)
      requires View() == EMPTY
      modifies this
      ensures RunTurns(wiki, model, 0, EMPTY) == if ok then Some(View()) else None
    {
      for turn := 0 to GATHER_TURNS
        invariant RunTurns(wiki, model, turn, View()) == RunTurns(wiki, model, 0, EMPTY)
      {
        match model(turn) {
          case None => return false;
          case Some(calls) =>
            if calls == [] {
              return true;
            }
            var done := Turn(wiki, calls);
            if done {
              return true;
            }
        }
      }
      ok := true;
    }
  }

  // ---------- the budget ----------

  ghost function StoredBytes(loaded: map<string, string>): nat
    decreases |loaded|
  {
    if loaded == map[] then 0
    else
      var path :| path in loaded;
      Bytes(loaded[path]) + StoredBytes(loaded - {path})
  }

  /** The sum does not depend on the order it is taken in. */
  lemma {:induction false} StoredBytesOf(loaded: map<string, string>, path: string)
    requires path in loaded
    ensures StoredBytes(loaded) == Bytes(loaded[path]) + StoredBytes(loaded - {path})
    decreases |loaded|
  {
    var first :| first in loaded && StoredBytes(loaded) == Bytes(loaded[first]) + StoredBytes(loaded - {first});
    if first != path {
      StoredBytesOf(loaded - {first}, path);
      StoredBytesOf(loaded - {path}, first);
      assert loaded - {first} - {path} == loaded - {path} - {first};
    }
  }

  lemma OneMore(n: nat, w: nat)
    ensures (n + 1) * w == n * w + w
  {
  }

  lemma {:induction false} BytesWithin(s: string, w: nat)
    requires Within(s, w)
    ensures Bytes(s) <= |s| * w
  {
    if s != "" {
      BytesWithin(s[1..], w);
      OneMore(|s| - 1, w);
    }
  }

  lemma TakenWithin(s: string, n: nat, w: nat)
    requires Within(s, w)
    ensures Bytes(Take(s, n)) <= n * w
  {
    BytesWithin(Take(s, n), w);
    assert |Take(s, n)| <= n;
    Grows(|Take(s, n)|, n, w);
  }

  lemma Grows(m: nat, n: nat, w: nat)
    requires m <= n
    ensures m * w <= n * w
  {
  }

  /** The most that can be loaded when no character takes more than `w` bytes: all the budget in
      the widest characters, or all but one byte of it and then the floor once more. */
  function Cap(w: nat): nat {
    var spent, overshot := MAX_CONTEXT_BYTES * w, MAX_CONTEXT_BYTES - 1 + FLOOR * w;
    if spent >= overshot then spent else overshot
  }

  lemma Overshoot(total: nat, more: nat, w: nat)
    requires 1 <= w <= 4 && total < MAX_CONTEXT_BYTES && more <= Allowance(total) * w
    ensures total + more <= Cap(w)
  {
    if Allowance(total) != FLOOR {
      SpendWithin(total, MAX_CONTEXT_BYTES - total, w);
    }
  }

  lemma SpendWithin(total: nat, left: nat, w: nat)
    requires w >= 1
    ensures total + left * w <= (total + left) * w
  {
    assert (total + left) * w == total * w + left * w;
    assert total * w >= total;
  }

  /** What holds between calls: the bytes counted are the bytes stored, within budget, and every
      stored page is the beginning of its page. */
  ghost predicate Sound(wiki: Readable, c: Context, w: nat) {
    && c.totalBytes == StoredBytes(c.loaded) <= Cap(w)
    && |c.loaded| <= MAX_PAGES_LOADED
    && forall p | p in c.loaded :: p in wiki && c.loaded[p] <= wiki[p]
  }

  ghost predicate AllWithin(wiki: Readable, w: nat) {
    1 <= w <= 4 && forall p | p in wiki :: Within(wiki[p], w)
  }

  lemma StoredMore(loaded: map<string, string>, path: string, text: string)
    requires path !in loaded
    ensures StoredBytes(loaded[path := text]) == StoredBytes(loaded) + Bytes(text)
    ensures |loaded[path := text]| == |loaded| + 1
  {
    assert loaded[path := text] - {path} == loaded;
    StoredBytesOf(loaded[path := text], path);
  }

  lemma LoadKeepsSound(wiki: Readable, c: Context, call: Call, w: nat)
    requires AllWithin(wiki, w) && Sound(wiki, c, w) && !IsFull(c)
    ensures Sound(wiki, Load(wiki, c, call), w)
  {
    if call.ReadPage? && call.path in wiki && call.path !in c.loaded {
      var text := Take(wiki[call.path], Allowance(c.totalBytes));
      TakenWithin(wiki[call.path], Allowance(c.totalBytes), w);
      Overshoot(c.totalBytes, Bytes(text), w);
      StoredMore(c.loaded, call.path, text);
    }
  }

  /** Every load made before a budget is full keeps it. */
  ghost predicate IsKept(wiki: Readable, inv: Context -> bool) {
    forall c, call | inv(c) && !IsFull(c) :: inv(Load(wiki, c, call))
  }

  lemma {:induction false} CallsKeep(wiki: Readable, c: Context, calls: seq<Call>, done: bool, inv: Context -> bool)
    requires inv(c) && !IsFull(c) && IsKept(wiki, inv)
    ensures var (next, over) := RunCalls(wiki, c, calls, done); inv(next) && (!over ==> !IsFull(next))
    decreases |calls|
  {
    if calls != [] {
      if calls[0].Done? {
        CallsKeep(wiki, c, calls[1..], true, inv);
      } else if !IsFull(Load(wiki, c, calls[0])) {
        CallsKeep(wiki, Load(wiki, c, calls[0]), calls[1..], done, inv);
      }
    }
  }

  predicate IsAsked(model: Model, turn: nat) {
    turn < GATHER_TURNS && model(turn).Some? && model(turn).value != []
  }

  lemma NextTurn(wiki: Readable, model: Model, turn: nat, c: Context)
    requires IsAsked(model, turn)
    ensures var (next, done) := RunCalls(wiki, c, model(turn).value, false);
            RunTurns(wiki, model, turn, c) == if done then Some(next) else RunTurns(wiki, model, turn + 1, next)
  {
  }

  lemma LastTurn(wiki: Readable, model: Model, turn: nat, c: Context)
    requires !IsAsked(model, turn)
    ensures RunTurns(wiki, model, turn, c) in {None, Some(c)}
  {
  }

  /** What every such load keeps, the whole gathering keeps. */
  lemma {:induction false} TurnsKeep(wiki: Readable, model: Model, turn: nat, c: Context, inv: Context -> bool)
    requires inv(c) && !IsFull(c) && IsKept(wiki, inv)
    ensures var r := RunTurns(wiki, model, turn, c); r.Some? ==> inv(r.value)
    decreases GATHER_TURNS - turn
  {
    if IsAsked(model, turn) {
      NextTurn(wiki, model, turn, c);
      CallsKeep(wiki, c, model(turn).value, false, inv);
      var (next, done) := RunCalls(wiki, c, model(turn).value, false);
      if !done {
        TurnsKeep(wiki, model, turn + 1, next, inv);
      }
    } else {
      LastTurn(wiki, model, turn, c);
    }
  }

  /** What is loaded is sound, whatever the model calls. */
  lemma GatherKeepsSound(wiki: Readable, model: Model, w: nat)
    requires AllWithin(wiki, w)
    ensures var r := RunTurns(wiki, model, 0, EMPTY); r.Some? ==> Sound(wiki, r.value, w)
  {
    var inv := (c: Context) => Sound(wiki, c, w);
    forall c, call | inv(c) && !IsFull(c)
      ensures inv(Load(wiki, c, call))
    {
      LoadKeepsSound(wiki, c, call, w);
    }
    TurnsKeep(wiki, model, 0, EMPTY, inv);
  }

  /** Whatever the model calls: at most eight pages, each the beginning of the page it names, and
      the bytes counted are the bytes stored: at most 31,023 of them where every character takes
      one byte, at most 120,000 for any text. */
  lemma GatherBudget(wiki: Readable, model: Model)
    ensures var r := RunTurns(wiki, model, 0, EMPTY);
            r.Some? ==>
              && Sound(wiki, r.value, 4) && |r.value.loaded| <= 8 && r.value.totalBytes <= 120_000
              && (AllWithin(wiki, 1) ==> r.value.totalBytes <= 31_023)
  {
    assert AllWithin(wiki, 4);
    GatherKeepsSound(wiki, model, 4);
    if AllWithin(wiki, 1) {
      GatherKeepsSound(wiki, model, 1);
    }
  }

  // ---------- what is asked for is loaded ----------

  lemma {:induction false} CharactersWithinBytes(s: string)
    ensures |s| <= Bytes(s)
  {
    if s != "" {
      CharactersWithinBytes(s[1..]);
    }
  }

  /** A page whose bytes are left is loaded whole. */
  lemma FittingIsLoadedWhole(wiki: Readable, c: Context, path: string)
    requires path in wiki && path !in c.loaded && c.totalBytes + Bytes(wiki[path]) <= 30_000
    ensures Load(wiki, c, ReadPage(path)) == Context(c.loaded[path := wiki[path]], c.totalBytes + Bytes(wiki[path]))
  {
    CharactersWithinBytes(wiki[path]);
  }

  /** The readable pages the calls ask for that are not loaded yet, whole. */
  function Wanted(wiki: Readable, c: Context, calls: seq<Call>): map<string, string> {
    map p | p in wiki && ReadPage(p) in calls && p !in c.loaded :: wiki[p]
  }

  predicate IsLoad(wiki: Readable, c: Context, call: Call) {
    call.ReadPage? && call.path in wiki && call.path !in c.loaded
  }

  lemma WantedStep(wiki: Readable, c: Context, calls: seq<Call>)
    requires calls != []
    ensures var w, next := Wanted(wiki, c, calls), Load(wiki, c, calls[0]);
            if IsLoad(wiki, c, calls[0]) then
              calls[0].path in w && w[calls[0].path] == wiki[calls[0].path]
              && Wanted(wiki, next, calls[1..]) == w - {calls[0].path}
            else next == c && Wanted(wiki, c, calls[1..]) == w
  {
    assert forall call :: call in calls <==> call == calls[0] || call in calls[1..];
  }

  lemma LoadedMore(loaded: map<string, string>, more: map<string, string>, path: string)
    requires path in more && path !in loaded
    ensures loaded[path := more[path]] + (more - {path}) == loaded + more
    ensures |more - {path}| == |more| - 1 && |loaded[path := more[path]]| == |loaded| + 1
  {
    assert more == (more - {path})[path := more[path]];
  }

  /** A load takes its page from what is wanted to what is loaded. */
  lemma WantedIsLoaded(wiki: Readable, c: Context, calls: seq<Call>)
    requires calls != [] && IsLoad(wiki, c, calls[0])
    requires c.totalBytes + StoredBytes(Wanted(wiki, c, calls)) < 30_000
    ensures var w, next := Wanted(wiki, c, calls), Load(wiki, c, calls[0]);
            var rest := Wanted(wiki, next, calls[1..]);
            && next.loaded + rest == c.loaded + w && |next.loaded| + |rest| == |c.loaded| + |w|
            && next.totalBytes + StoredBytes(rest) == c.totalBytes + StoredBytes(w)
  {
    var w, path := Wanted(wiki, c, calls), calls[0].path;
    WantedStep(wiki, c, calls);
    StoredBytesOf(w, path);
    LoadedMore(c.loaded, w, path);
    FittingIsLoadedWhole(wiki, c, path);
  }

  lemma NoMoreWanted(c: Context, rest: map<string, string>)
    requires IsFull(c) && |c.loaded| + |rest| <= 8 && c.totalBytes + StoredBytes(rest) < 30_000
    ensures rest == map[] && c.loaded + rest == c.loaded && StoredBytes(rest) == 0
  {
  }

  /** Within the budgets every readable page a turn asks for is loaded, and whole: if with them there are
      at most 8 pages and less than 30,000 bytes. */
  lemma {:induction false} TurnLoadsWhatIsAsked(wiki: Readable, c: Context, calls: seq<Call>, done: bool)
    requires !IsFull(c)
    requires |c.loaded| + |Wanted(wiki, c, calls)| <= 8
    requires c.totalBytes + StoredBytes(Wanted(wiki, c, calls)) < 30_000
    ensures var w, next := Wanted(wiki, c, calls), RunCalls(wiki, c, calls, done).0;
            next.loaded == c.loaded + w && next.totalBytes == c.totalBytes + StoredBytes(w)
    decreases |calls|
  {
    if calls == [] {
      assert Wanted(wiki, c, calls) == map[] && c.loaded + Wanted(wiki, c, calls) == c.loaded;
    } else if IsLoad(wiki, c, calls[0]) {
      var next := Load(wiki, c, calls[0]);
      WantedIsLoaded(wiki, c, calls);
      if IsFull(next) {
        NoMoreWanted(next, Wanted(wiki, next, calls[1..]));
      } else {
        TurnLoadsWhatIsAsked(wiki, next, calls[1..], done);
      }
    } else {
      WantedStep(wiki, c, calls);
      TurnLoadsWhatIsAsked(wiki, c, calls[1..], if calls[0].Done? then true else done);
    }
  }

  /** The calls of the first six turns from `turn` on, in one list. */
  function AllCalls(model: Model, turn: nat): seq<Call>
    decreases 6 - turn
  {
    if turn >= 6 || model(turn).None? then [] else model(turn).value + AllCalls(model, turn + 1)
  }

  predicate Continues(calls: seq<Call>) {
    calls != [] && Done !in calls
  }

  lemma {:induction false} CallsConcat(wiki: Readable, c: Context, a: seq<Call>, b: seq<Call>)
    requires Done !in a
    ensures var r := RunCalls(wiki, c, a, false);
            RunCalls(wiki, c, a + b, false) == if r.1 then r else RunCalls(wiki, r.0, b, false)
    decreases |a|
  {
    if a == [] {
      assert a + b == b;
    } else {
      assert (a + b)[1..] == a[1..] + b;
      CallsConcat(wiki, Load(wiki, c, a[0]), a[1..], b);
    }
  }

  /** A model that goes on calling is heard six times: what it gathers is what its calls of six turns
      gather as one list. */
  lemma {:induction false} SixTurnsAreHeard(wiki: Readable, model: Model, turn: nat, c: Context)
    requires turn <= 6 && forall t: nat | t < 6 :: model(t).Some? && Continues(model(t).value)
    ensures RunTurns(wiki, model, turn, c) == Some(RunCalls(wiki, c, AllCalls(model, turn), false).0)
    decreases 6 - turn
  {
    if turn < 6 {
      assert Continues(model(turn).value);
      CallsConcat(wiki, c, model(turn).value, AllCalls(model, turn + 1));
      SixTurnsAreHeard(wiki, model, turn + 1, RunCalls(wiki, c, model(turn).value, false).0);
    }
  }

  // ---------- when the budget is kept ----------

  /** A load of more bytes than are left: the characters it may take are as many as the bytes left,
      or the floor, whatever they are worth in bytes. */
  predicate Oversteps(wiki: Readable, c: Context, call: Call) {
    && IsLoad(wiki, c, call)
    && c.totalBytes + Bytes(Take(wiki[call.path], Allowance(c.totalBytes))) > MAX_CONTEXT_BYTES
  }

  /** A byte for every character, and more exactly if some character takes more than one. */
  lemma {:induction false} NarrowBytes(s: string)
    ensures Bytes(s) >= |s|
    ensures Bytes(s) == |s| <==> Within(s, 1)
  {
    if s != "" {
      NarrowBytes(s[1..]);
      assert Within(s, 1) <==> Width(s[0]) <= 1 && Within(s[1..], 1) by {
        assert forall i | 0 < i < |s| :: s[i] == s[1..][i - 1];
      }
    }
  }

  /** A page of no more characters than bytes are left must fit with all its bytes; a longer one may be
      loaded only if the floor is left, and characters of one byte to fill it. */
  predicate Exceeds(page: string, left: nat) {
    if |page| <= left then Bytes(page) > left else left < FLOOR || !Within(page[..left], 1)
  }

  /** Which loads overstep, for text of any width. */
  lemma OverstepsExactly(wiki: Readable, c: Context, call: Call)
    requires !IsFull(c)
    ensures Oversteps(wiki, c, call) <==>
              IsLoad(wiki, c, call) && Exceeds(wiki[call.path], MAX_CONTEXT_BYTES - c.totalBytes)
  {
    if IsLoad(wiki, c, call) {
      NarrowBytes(Take(wiki[call.path], Allowance(c.totalBytes)));
    }
  }

  /** Where every character takes one byte only the floor oversteps: exactly when less than the floor
      is left, and the page has more than that. */
  lemma NarrowOversteps(wiki: Readable, c: Context, call: Call)
    requires AllWithin(wiki, 1) && !IsFull(c)
    ensures Oversteps(wiki, c, call) <==>
              var left := MAX_CONTEXT_BYTES - c.totalBytes;
              IsLoad(wiki, c, call) && left < FLOOR && |wiki[call.path]| > left
  {
    OverstepsExactly(wiki, c, call);
    if IsLoad(wiki, c, call) {
      NarrowBytes(wiki[call.path]);
    }
  }

  /** The calls a turn gets to, each with what was loaded before it. */
  function CallsMade(wiki: Readable, c: Context, calls: seq<Call>): seq<(Context, Call)>
    decreases |calls|
  {
    if calls == [] then []
    else if calls[0].Done? then CallsMade(wiki, c, calls[1..])
    else
      var next := Load(wiki, c, calls[0]);
      [(c, calls[0])] + if IsFull(next) then [] else CallsMade(wiki, next, calls[1..])
  }

  function TurnsMade(wiki: Readable, model: Model, turn: nat, c: Context): seq<(Context, Call)>
    decreases GATHER_TURNS - turn
  {
    if turn >= GATHER_TURNS || model(turn).None? || model(turn).value == [] then []
    else
      var calls := model(turn).value;
      var (next, done) := RunCalls(wiki, c, calls, false);
      CallsMade(wiki, c, calls) + if done then [] else TurnsMade(wiki, model, turn + 1, next)
  }

  predicate SomeOversteps(wiki: Readable, made: seq<(Context, Call)>) {
    exists m :: m in made && Oversteps(wiki, m.0, m.1)
  }

  lemma SomeOverstepsConcat(wiki: Readable, a: seq<(Context, Call)>, b: seq<(Context, Call)>)
    ensures SomeOversteps(wiki, a + b) <==> SomeOversteps(wiki, a) || SomeOversteps(wiki, b)
  {
    assert forall m :: m in a + b <==> m in a || m in b;
  }

  lemma LoadWithin(wiki: Readable, c: Context, call: Call)
    requires !IsFull(c)
    ensures Load(wiki, c, call).totalBytes > MAX_CONTEXT_BYTES <==> SomeOversteps(wiki, [(c, call)])
  {
    assert (c, call) in [(c, call)];
  }

  lemma {:induction false} CallsWithin(wiki: Readable, c: Context, calls: seq<Call>, done: bool)
    requires !IsFull(c)
    ensures var (next, over) := RunCalls(wiki, c, calls, done);
            && (next.totalBytes > MAX_CONTEXT_BYTES <==> SomeOversteps(wiki, CallsMade(wiki, c, calls)))
            && (!over ==> !IsFull(next))
            && (IsFull(next) ==> over)
    decreases |calls|
  {
    if calls != [] {
      if calls[0].Done? {
        CallsWithin(wiki, c, calls[1..], true);
      } else {
        var next := Load(wiki, c, calls[0]);
        LoadWithin(wiki, c, calls[0]);
        if IsFull(next) {
          AppendEmpty([(c, calls[0])]);
        } else {
          CallsWithin(wiki, next, calls[1..], done);
          SomeOverstepsConcat(wiki, [(c, calls[0])], CallsMade(wiki, next, calls[1..]));
        }
      }
    }
  }

  lemma {:induction false} TurnsWithin(wiki: Readable, model: Model, turn: nat, c: Context)
    requires !IsFull(c)
    ensures var r := RunTurns(wiki, model, turn, c);
            r.Some? ==> (r.value.totalBytes > MAX_CONTEXT_BYTES <==> SomeOversteps(wiki, TurnsMade(wiki, model, turn, c)))
    decreases GATHER_TURNS - turn
  {
    if turn < GATHER_TURNS && model(turn).Some? && model(turn).value != [] {
      var calls := model(turn).value;
      CallsWithin(wiki, c, calls, false);
      var (next, done) := RunCalls(wiki, c, calls, false);
      if done {
        AppendEmpty(CallsMade(wiki, c, calls));
      } else {
        TurnsWithin(wiki, model, turn + 1, next);
        SomeOverstepsConcat(wiki, CallsMade(wiki, c, calls), TurnsMade(wiki, model, turn + 1, next));
      }
    }
  }

  /** The budget is kept if and only if no load of the run oversteps. */
  lemma BudgetIsKeptExactly(wiki: Readable, model: Model)
    ensures var r := RunTurns(wiki, model, 0, EMPTY);
            r.Some? ==> (r.value.totalBytes <= MAX_CONTEXT_BYTES <==>
                           forall m | m in TurnsMade(wiki, model, 0, EMPTY) :: !Oversteps(wiki, m.0, m.1))
  {
    TurnsWithin(wiki, model, 0, EMPTY);
  }

  // ---------- both bounds are reached ----------

  function Copies(c: char, n: nat): (s: string)
    ensures |s| == n && forall i | 0 <= i < n :: s[i] == c
  {
    seq(n, _ => c)
  }

  lemma {:induction false} BytesOfCopies(c: char, n: nat)
    ensures Bytes(Copies(c, n)) == n * Width(c)
  {
    if n > 0 {
      assert Copies(c, n)[1..] == Copies(c, n - 1);
      BytesOfCopies(c, n - 1);
    }
  }

  lemma LoadCopies(wiki: Readable, c: Context, path: string, ch: char, n: nat)
    requires path in wiki && path !in c.loaded && wiki[path] == Copies(ch, n)
    ensures var m := if n <= Allowance(c.totalBytes) then n else Allowance(c.totalBytes);
            Load(wiki, c, ReadPage(path)) == Context(c.loaded[path := Copies(ch, m)], c.totalBytes + m * Width(ch))
  {
    var m := if n <= Allowance(c.totalBytes) then n else Allowance(c.totalBytes);
    assert Take(wiki[path], Allowance(c.totalBytes)) == Copies(ch, m);
    BytesOfCopies(ch, m);
  }

  lemma StepCalls(wiki: Readable, c: Context, calls: seq<Call>)
    requires calls != [] && !calls[0].Done?
    ensures var next := Load(wiki, c, calls[0]);
            RunCalls(wiki, c, calls, false) == if IsFull(next) then (next, true) else RunCalls(wiki, next, calls[1..], false)
  {
  }

  lemma OneTurn(wiki: Readable, model: Model, calls: seq<Call>, c: Context)
    requires calls != [] && model(0) == Some(calls) && RunCalls(wiki, EMPTY, calls, false) == (c, true)
    ensures RunTurns(wiki, model, 0, EMPTY) == Some(c)
  {
  }

  predicate Loads(wiki: Readable, model: Model, bytes: nat) {
    var r := RunTurns(wiki, model, 0, EMPTY);
    r.Some? && r.value.totalBytes == bytes
  }

  lemma TwoLoads(wiki: Readable, a: string, b: string) returns (model: Model)
    requires a != b && a in wiki && b in wiki
    requires wiki[a] == Copies('x', MAX_CONTEXT_BYTES - 1) && wiki[b] == Copies('x', FLOOR)
    ensures Loads(wiki, model, MAX_CONTEXT_BYTES - 1 + FLOOR)
  {
    var calls := [ReadPage(a), ReadPage(b)];
    model := _ => Some(calls);
    LoadCopies(wiki, EMPTY, a, 'x', MAX_CONTEXT_BYTES - 1);
    var one := Load(wiki, EMPTY, calls[0]);
    LoadCopies(wiki, one, b, 'x', FLOOR);
    StepCalls(wiki, EMPTY, calls);
    StepCalls(wiki, one, calls[1..]);
    OneTurn(wiki, model, calls, Load(wiki, one, calls[1]));
  }

  /** All but one byte of the budget, then the floor: 31,023. */
  lemma FloorOvershoots()
    ensures exists wiki, model :: AllWithin(wiki, 1) && Loads(wiki, model, 31_023)
  {
    var wiki := map["a" := Copies('x', MAX_CONTEXT_BYTES - 1), "b" := Copies('x', FLOOR)];
    assert "a"[0] != "b"[0];
    var model := TwoLoads(wiki, "a", "b");
    assert AllWithin(wiki, 1) && Loads(wiki, model, 31_023);
  }

  lemma OneLoad(wiki: Readable, a: string, c: char) returns (model: Model)
    requires a in wiki && wiki[a] == Copies(c, MAX_CONTEXT_BYTES) && Width(c) == 4
    ensures Loads(wiki, model, MAX_CONTEXT_BYTES * 4)
  {
    var calls := [ReadPage(a)];
    model := _ => Some(calls);
    LoadCopies(wiki, EMPTY, a, c, MAX_CONTEXT_BYTES);
    StepCalls(wiki, EMPTY, calls);
    OneTurn(wiki, model, calls, Load(wiki, EMPTY, calls[0]));
  }

  /** The budget spent on characters of four bytes: 120,000. */
  lemma WideCharactersOvershoot()
    ensures exists wiki, model :: Loads(wiki, model, 120_000)
  {
    var wiki := map["a" := Copies('\U{1F600}', MAX_CONTEXT_BYTES)];
    var model := OneLoad(wiki, "a", '\U{1F600}');
    assert Loads(wiki, model, 120_000);
  }
}
