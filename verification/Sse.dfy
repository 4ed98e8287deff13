/** Incremental reading of a server-sent event stream: a byte buffer filled by arbitrary
    chunks and drained at every blank line (section 9.2.5 of the WHATWG HTML Standard). */
module Sse {
  import opened Wrappers
  import opened Seqs
  import opened Text
  import opened Framing

  const LF: bv8 := 10
  const CR: bv8 := 13

  // ---------- framing ----------

  /** Length of the event terminator at `i`: two for LF LF, four for CR LF CR LF, else none. */
  function TerminatorAt(buf: Bytes, i: nat): nat {
    if i + 1 < |buf| && buf[i] == LF && buf[i + 1] == LF then 2
    else if i + 3 < |buf| && buf[i] == CR && buf[i + 1] == LF && buf[i + 2] == CR && buf[i + 3] == LF then 4
    else 0
  }

  datatype Terminator = Terminator(at: nat, len: nat)

  /** The first terminator at or after `from`. */
  function Find(buf: Bytes, from: nat := 0): (r: Option<Terminator>)
    ensures r.Some? ==>
              && from <= r.value.at && r.value.at + r.value.len <= |buf|
              && r.value.len == TerminatorAt(buf, r.value.at) > 0
              && forall k | from <= k < r.value.at :: TerminatorAt(buf, k) == 0
    ensures r.None? ==> forall k | from <= k :: TerminatorAt(buf, k) == 0
    decreases |buf| - from
  {
    if from >= |buf| then None
    else if TerminatorAt(buf, from) > 0 then Some(Terminator(from, TerminatorAt(buf, from)))
    else Find(buf, from + 1)
  }

  method FindEventTerminator(buf: Bytes) returns (r: Option<Terminator>)
    ensures r == Find(buf)
    ensures r.Some? ==> buf[r.value.at..r.value.at + r.value.len] in {[10, 10], [13, 10, 13, 10]}
  {
    var last := if |buf| == 0 then 0 else |buf| - 1;
    for i := 0 to last
      invariant Find(buf) == Find(buf, i)
    {
      if buf[i] == LF && buf[i + 1] == LF {
        assert buf[i..i + 2] == [LF, LF];
        return Some(Terminator(i, 2));
      }
      if i + 3 < |buf| && buf[i..i + 4] == [CR, LF, CR, LF] {
        assert buf[i..i + 4][0] == CR && buf[i..i + 4][1] == LF && buf[i..i + 4][2] == CR && buf[i..i + 4][3] == LF;
        return Some(Terminator(i, 4));
      }
    }
    return None;
  }

  /** No later byte can complete a terminator that starts before one already complete. */
  lemma NoEarlierTerminator(buf: Bytes, more: Bytes, at: nat, k: nat)
    requires k < at && TerminatorAt(buf, at) > 0 && TerminatorAt(buf, k) == 0
    ensures TerminatorAt(buf + more, k) == 0
  {
    assert at + 1 < |buf|;
    assert (buf + more)[k] == buf[k] && (buf + more)[k + 1] == buf[k + 1];
    if k + 3 >= |buf| {
      assert at == k + 1;
      assert (buf + more)[k + 2] == buf[k + 2] == LF;
    }
  }

  /** Bytes that arrive later never displace a terminator already found, although the
      four-byte form needs more of them than the two-byte form. */
  lemma TerminatorIsStable(buf: Bytes, more: Bytes)
    requires Find(buf).Some?
    ensures Find(buf + more) == Find(buf)
  {
    var t := Find(buf).value;
    assert TerminatorAt(buf + more, t.at) == t.len;
    forall k | 0 <= k < t.at
      ensures TerminatorAt(buf + more, k) == 0
    {
      NoEarlierTerminator(buf, more, t.at, k);
    }
  }

  /** The reader's cutter: an event up to and including its terminator. */
  function Cut(buf: Bytes): nat {
    match Find(buf)
    case None => 0
    case Some(t) => t.at + t.len
  }

  lemma CutEventIsWhole(buf: Bytes)
    requires Cut(buf) > 0
    ensures Cut(buf[..Cut(buf)]) == Cut(buf)
  {
    var t := Find(buf).value;
    var e := buf[..Cut(buf)];
    assert TerminatorAt(e, t.at) == t.len;
    forall k | 0 <= k < t.at
      ensures TerminatorAt(e, k) == 0
    {
      assert TerminatorAt(buf, k) == 0;
    }
  }

  lemma CutIsStable()
    ensures Stable(Cut)
  {
    forall a: Bytes | Cut(a) > 0
      ensures Cut(a[..Cut(a)]) == Cut(a)
    {
      CutEventIsWhole(a);
    }
    forall a: Bytes, b: Bytes | Cut(a) > 0
      ensures Cut(a + b) == Cut(a)
    {
      TerminatorIsStable(a, b);
    }
  }

  // ---------- blank lines of the standard ----------

  /** Length of the line end at `i`: CR LF, or a lone CR or LF. */
  function LineEndAt(buf: Bytes, i: nat): nat {
    if i >= |buf| || (buf[i] != CR && buf[i] != LF) then 0
    else if buf[i] == CR && i + 1 < |buf| && buf[i + 1] == LF then 2
    else 1
  }

  /** A line end begins at `i`; the LF of a CR LF does not begin one. */
  predicate StartsLineEnd(buf: Bytes, i: nat) {
    LineEndAt(buf, i) > 0 && !(buf[i] == LF && i > 0 && buf[i - 1] == CR)
  }

  /** Where the blank line ends whose line before it ends at `i`, or zero if none does. */
  function BlankEnd(buf: Bytes, i: nat): nat {
    var j := i + LineEndAt(buf, i);
    if StartsLineEnd(buf, i) && LineEndAt(buf, j) > 0 then j + LineEndAt(buf, j) else 0
  }

  predicate IsFirstBlank(buf: Bytes, i: nat) {
    BlankEnd(buf, i) > 0 && forall j | 0 <= j < i :: BlankEnd(buf, j) == 0
  }

  /** The reader's terminators are blank lines. */
  lemma TerminatorIsBlank(buf: Bytes, at: nat) returns (i: nat)
    requires TerminatorAt(buf, at) > 0
    ensures i <= at <= i + 1 && BlankEnd(buf, i) == at + TerminatorAt(buf, at)
    ensures i < at ==> buf[i] == CR && TerminatorAt(buf, at) == 2
  {
    i := if buf[at] == LF && at > 0 && buf[at - 1] == CR then at - 1 else at;
  }

  lemma LaterBlankEndsLater(buf: Bytes, i: nat, j: nat)
    requires i < j && BlankEnd(buf, i) > 0 && BlankEnd(buf, j) > 0
    ensures BlankEnd(buf, i) < BlankEnd(buf, j)
  {
    var second := i + LineEndAt(buf, i);
    assert j >= second;
    assert j == second || j >= second + LineEndAt(buf, second);
  }

  /** Both line ends are CR LF, or the first ends in LF and the second is a lone LF. */
  predicate IsSeen(buf: Bytes, i: nat)
    requires BlankEnd(buf, i) > 0
  {
    var j := i + LineEndAt(buf, i);
    buf[j - 1] == LF && (buf[j] == LF || (LineEndAt(buf, i) == 2 && LineEndAt(buf, j) == 2))
  }

  lemma SeenIsTerminated(buf: Bytes, i: nat)
    requires BlankEnd(buf, i) > 0 && IsSeen(buf, i)
    ensures TerminatorAt(buf, i) > 0 || (TerminatorAt(buf, i) == 0 < TerminatorAt(buf, i + 1) && buf[i] == CR)
  {
  }

  lemma TerminatedIsSeen(buf: Bytes, at: nat, i: nat)
    requires TerminatorAt(buf, at) > 0 && BlankEnd(buf, i) == at + TerminatorAt(buf, at)
    requires i == at || (i + 1 == at && buf[i] == CR && TerminatorAt(buf, at) == 2)
    ensures IsSeen(buf, i)
  {
  }

  /** The reader cuts at the first blank line exactly if that is LF LF, CR LF LF or CR LF CR LF; when it
      is another, the reader goes on to a later one or waits for more. */
  lemma FirstBlankIsCutExactly(buf: Bytes, i: nat)
    requires IsFirstBlank(buf, i)
    ensures Cut(buf) == BlankEnd(buf, i) <==> IsSeen(buf, i)
    ensures Cut(buf) == 0 || Cut(buf) >= BlankEnd(buf, i)
  {
    if Find(buf).Some? {
      var t := Find(buf).value;
      var b := TerminatorIsBlank(buf, t.at);
      assert b >= i;
      if b > i {
        LaterBlankEndsLater(buf, i, b);
        if IsSeen(buf, i) {
          SeenIsTerminated(buf, i);
        }
      } else {
        TerminatedIsSeen(buf, t.at, i);
      }
    } else if IsSeen(buf, i) {
      SeenIsTerminated(buf, i);
    }
  }

  /** Where lines end in CR alone no event is ever cut. */
  lemma CrAloneIsNeverCut(buf: Bytes)
    requires LF !in buf
    ensures Cut(buf) == 0 && Drain(Cut, buf) == Drained([], buf)
  {
    assert forall k | 0 <= k < |buf| :: buf[k] in buf;
  }

  /** A body that can be framed: no terminator in it, and none formed with what follows. */
  predicate Frameable(body: Bytes) {
    && Find(body).None?
    && (body != [] ==> body[|body| - 1] != LF)
    && !(|body| >= 3 && body[|body| - 3..] == [CR, LF, CR])
  }

  lemma NoTerminatorInside(body: Bytes, k: nat)
    requires Frameable(body) && k < |body|
    ensures TerminatorAt(body + [LF, LF], k) == 0
  {
    var f, n := body + [LF, LF], |body|;
    assert TerminatorAt(body, k) == 0;
    assert f[k] == body[k];
    if k + 1 == n {
      assert f[k] != LF && f[k + 2] == LF;
    } else if k + 2 == n {
      assert f[k + 1] == body[k + 1] != LF;
    } else if k + 3 == n {
      assert f[k + 1] == body[k + 1] && f[k + 2] == body[k + 2];
      assert body[k..] == [body[k], body[k + 1], body[k + 2]];
    } else {
      assert f[k + 1] == body[k + 1] && f[k + 2] == body[k + 2] && f[k + 3] == body[k + 3];
    }
  }

  lemma FrameableSuffices(body: Bytes)
    requires Frameable(body)
    ensures Find(body + [LF, LF]) == Some(Terminator(|body|, 2))
  {
    forall k | 0 <= k < |body|
      ensures TerminatorAt(body + [LF, LF], k) == 0
    {
      NoTerminatorInside(body, k);
    }
    assert TerminatorAt(body + [LF, LF], |body|) == 2;
  }

  /** Exactly the frameable bodies have the appended blank line as their first terminator. */
  lemma FrameableExactly(body: Bytes)
    ensures Frameable(body) <==> Find(body + [LF, LF]) == Some(Terminator(|body|, 2))
  {
    var f, n := body + [LF, LF], |body|;
    if Frameable(body) {
      FrameableSuffices(body);
    } else if Find(body).Some? {
      TerminatorIsStable(body, [LF, LF]);
    } else if n > 0 && body[n - 1] == LF {
      assert TerminatorAt(f, n - 1) == 2;
    } else {
      assert body[n - 3..] == [body[n - 3], body[n - 2], body[n - 1]];
      assert TerminatorAt(f, n - 3) == 4;
    }
  }

  /** A body as it is sent: with a blank line after it. */
  function Framed(body: Bytes): Bytes {
    body + [LF, LF]
  }

  /** What is cut off whole after a body that is framed, and no other. */
  lemma FramedIsUnit(body: Bytes)
    ensures IsUnit(Cut, Framed(body)) <==> Frameable(body)
  {
    FrameableExactly(body);
  }

  /** Framing then draining gives the same bodies back, in order, with nothing left over, if and only
      if all of them are frameable. */
  lemma FramingRoundTrip(bodies: seq<Bytes>)
    ensures Drain(Cut, Concat(Map(Framed, bodies))) == Drained(Map(Framed, bodies), [])
       <==> forall b | b in bodies :: Frameable(b)
  {
    CutIsStable();
    forall b: Bytes
      ensures IsUnit(Cut, Framed(b)) <==> Frameable(b)
    {
      FramedIsUnit(b);
    }
    FramesRoundTrip(Cut, Framed, Frameable, bodies);
  }

  // ---------- from events to tokens ----------

  /** What one `data:` payload asks for. */
  datatype Action = Skip | Emit(token: string) | Stop

  /** The decoders the reader calls: UTF-8 validation and the reading of a payload. */
  datatype Wire = Wire(utf8: Bytes -> Option<string>, payload: string -> Action)

  /** OpenAI shape: `[DONE]` ends the stream, empty deltas are dropped. */
  function OpenAiWire(utf8: Bytes -> Option<string>, delta: string -> Option<string>): Wire {
    Wire(utf8, data =>
           if data == "[DONE]" then Stop
           else match delta(data)
                case None => Skip
                case Some(text) => if text == "" then Skip else Emit(text))
  }

  /** Anthropic shape: no end marker, and an empty delta is still a token. */
  function AnthropicWire(utf8: Bytes -> Option<string>, delta: string -> Option<string>): Wire {
    Wire(utf8, data => match delta(data) case None => Skip case Some(text) => Emit(text))
  }

  function LineAction(w: Wire, line: string): Action {
    match StripPrefix(line, "data:")
    case None => Skip
    case Some(rest) => var data := TrimStart(rest);
                       if data == "" then Skip else w.payload(data)
  }

  function Then(o: Out, a: Action): Out {
    match a
    case Skip => o
    case Emit(t) => Out(o.tokens + [t], false)
    case Stop => Out(o.tokens, true)
  }

  function RunLines(w: Wire, o: Out, lines: seq<string>): Out
    decreases |lines|
  {
    if lines == [] || o.stopped then o
    else RunLines(w, Then(o, LineAction(w, lines[0])), lines[1..])
  }

  /** An event that is not UTF-8 is skipped; otherwise its lines are read in order. */
  function ReadEvent(w: Wire, o: Out, event: Bytes): Out {
    match w.utf8(event)
    case None => o
    case Some(text) => RunLines(w, o, Lines(text))
  }

  function EventReader(w: Wire): Reader {
    (o, event) => ReadEvent(w, o, event)
  }

  // ---------- streams as lines ----------

  function EventLines(w: Wire): Bytes -> seq<string> {
    (event: Bytes) => match w.utf8(event) case Some(text) => Lines(text) case None => []
  }

  lemma {:induction false} RunLinesAppend(w: Wire, o: Out, a: seq<string>, b: seq<string>)
    ensures RunLines(w, o, a + b) == RunLines(w, RunLines(w, o, a), b)
    decreases |a|
  {
    if a == [] {
      AppendEmpty(b);
    } else if !o.stopped {
      TailAppend(a, b);
      RunLinesAppend(w, Then(o, LineAction(w, a[0])), a[1..], b);
    }
  }

  /** Reading events one by one is running through all their lines. */
  lemma {:induction false} EventsAreLines(w: Wire, o: Out, events: seq<Bytes>)
    ensures ReadOn(EventReader(w), o, events) == RunLines(w, o, FlatMap(EventLines(w), events))
    decreases |events|
  {
    if events != [] && !o.stopped {
      EventsAreLines(w, ReadEvent(w, o, events[0]), events[1..]);
      RunLinesAppend(w, o, EventLines(w)(events[0]), FlatMap(EventLines(w), events[1..]));
    }
  }

  /** The lines of all complete events of a delivery. */
  function StreamLines(w: Wire, chunks: seq<Chunk>): seq<string> {
    FlatMap(EventLines(w), Drain(Cut, Received(chunks).bytes).units)
  }

  lemma OutcomeOfLines(w: Wire, chunks: seq<Chunk>)
    ensures Outcome(Cut, EventReader(w), chunks).0 == RunLines(w, START, StreamLines(w, chunks))
  {
    EventsAreLines(w, START, Drain(Cut, Received(chunks).bytes).units);
  }

  /** The payload of a line, if it has one. */
  function Payload(line: string): Option<string> {
    match StripPrefix(line, "data:")
    case None => None
    case Some(rest) => if TrimStart(rest) == "" then None else Some(TrimStart(rest))
  }

  const DONE := "[DONE]"

  predicate IsDone(line: string) {
    Payload(line) == Some(DONE)
  }

  function DoneAt(lines: seq<string>): nat {
    FirstWhere(IsDone, lines)
  }

  /** The text a line carries, dropped when empty. */
  function TokenOf(delta: string -> Option<string>): string -> seq<string> {
    (line: string) =>
      match Payload(line)
      case None => []
      case Some(data) => match delta(data) case Some(text) => (if text == "" then [] else [text]) case None => []
  }

  lemma OneLineRead(utf8: Bytes -> Option<string>, delta: string -> Option<string>, o: Out, line: string)
    requires !o.stopped
    ensures Then(o, LineAction(OpenAiWire(utf8, delta), line)) ==
              if IsDone(line) then Out(o.tokens, true) else Out(o.tokens + TokenOf(delta)(line), false)
  {
    AppendEmpty(o.tokens);
  }

  lemma {:induction false} DoneEndsLines(
    utf8: Bytes -> Option<string>, delta: string -> Option<string>, o: Out, lines: seq<string>)
    requires !o.stopped
    ensures RunLines(OpenAiWire(utf8, delta), o, lines) ==
              Out(o.tokens + FlatMap(TokenOf(delta), lines[..DoneAt(lines)]), DoneAt(lines) < |lines|)
    decreases |lines|
  {
    AppendEmpty(o.tokens);
    if lines != [] {
      OneLineRead(utf8, delta, o, lines[0]);
      if !IsDone(lines[0]) {
        var more := TokenOf(delta)(lines[0]);
        DoneEndsLines(utf8, delta, Out(o.tokens + more, false), lines[1..]);
        TokensStep(TokenOf(delta), o.tokens, lines, DoneAt(lines[1..]));
      }
    }
  }

  lemma TokensStep(f: string -> seq<string>, before: seq<string>, lines: seq<string>, k: nat)
    requires lines != [] && k < |lines|
    ensures before + f(lines[0]) + FlatMap(f, lines[1..][..k]) == before + FlatMap(f, lines[..k + 1])
  {
    assert lines[..k + 1][1..] == lines[1..][..k];
    AppendAssociates(before, f(lines[0]), FlatMap(f, lines[1..][..k]));
  }

  lemma TokensAreTexts(delta: string -> Option<string>, lines: seq<string>)
    ensures forall t | t in FlatMap(TokenOf(delta), lines) :: t != ""
  {
    FlatMapMembers(TokenOf(delta), lines);
  }

  /** The OpenAI shape: the tokens are exactly the non-empty texts of the lines before the first
      `[DONE]`, and the stream has stopped exactly if there is one. */
  lemma OpenAiTokens(utf8: Bytes -> Option<string>, delta: string -> Option<string>, chunks: seq<Chunk>)
    ensures var w := OpenAiWire(utf8, delta);
            var lines := StreamLines(w, chunks);
            var tokens := FlatMap(TokenOf(delta), lines[..DoneAt(lines)]);
            && Outcome(Cut, EventReader(w), chunks).0 == Out(tokens, DoneAt(lines) < |lines|)
            && forall t | t in tokens :: t != ""
  {
    var w := OpenAiWire(utf8, delta);
    var lines := StreamLines(w, chunks);
    OutcomeOfLines(w, chunks);
    DoneEndsLines(utf8, delta, START, lines);
    AppendEmpty(FlatMap(TokenOf(delta), lines[..DoneAt(lines)]));
    TokensAreTexts(delta, lines[..DoneAt(lines)]);
  }

  /** The text a line carries, empty ones included. */
  function TextOf(delta: string -> Option<string>): string -> seq<string> {
    (line: string) =>
      match Payload(line)
      case None => []
      case Some(data) => match delta(data) case Some(text) => [text] case None => []
  }

  lemma OneLineEmits(utf8: Bytes -> Option<string>, delta: string -> Option<string>, o: Out, line: string)
    requires !o.stopped
    ensures Then(o, LineAction(AnthropicWire(utf8, delta), line)) == Out(o.tokens + TextOf(delta)(line), false)
  {
    AppendEmpty(o.tokens);
    match Payload(line)
    case None =>
    case Some(data) =>
      assert AnthropicWire(utf8, delta).payload(data) ==
             match delta(data) case None => Skip case Some(text) => Emit(text);
  }

  lemma {:induction false} LinesEmitAll(
    utf8: Bytes -> Option<string>, delta: string -> Option<string>, o: Out, lines: seq<string>)
    requires !o.stopped
    ensures RunLines(AnthropicWire(utf8, delta), o, lines) == Out(o.tokens + FlatMap(TextOf(delta), lines), false)
    decreases |lines|
  {
    AppendEmpty(o.tokens);
    if lines != [] {
      var next := Out(o.tokens + TextOf(delta)(lines[0]), false);
      OneLineEmits(utf8, delta, o, lines[0]);
      LinesEmitAll(utf8, delta, next, lines[1..]);
      AppendAssociates(o.tokens, TextOf(delta)(lines[0]), FlatMap(TextOf(delta), lines[1..]));
    }
  }

  /** The Anthropic shape: the tokens are exactly the texts of all lines, empty ones included, and
      nothing but a break in the connection ends the stream. */
  lemma AnthropicTokens(utf8: Bytes -> Option<string>, delta: string -> Option<string>, chunks: seq<Chunk>)
    ensures var w := AnthropicWire(utf8, delta);
            Outcome(Cut, EventReader(w), chunks) ==
              (Out(FlatMap(TextOf(delta), StreamLines(w, chunks)), false), Received(chunks).broken)
  {
    var w := AnthropicWire(utf8, delta);
    OutcomeOfLines(w, chunks);
    LinesEmitAll(utf8, delta, START, StreamLines(w, chunks));
    AppendEmpty(FlatMap(TextOf(delta), StreamLines(w, chunks)));
  }

  /** So no event is left unread. */
  lemma AnthropicNeverStops(utf8: Bytes -> Option<string>, delta: string -> Option<string>, events: seq<Bytes>)
    ensures !ReadOn(EventReader(AnthropicWire(utf8, delta)), START, events).stopped
  {
    var w := AnthropicWire(utf8, delta);
    EventsAreLines(w, START, events);
    LinesEmitAll(utf8, delta, START, FlatMap(EventLines(w), events));
  }

  // ---------- the reader ----------

  method ReadLines(w: Wire, before: Out, event: Bytes) returns (after: Out)
    requires !before.stopped
    ensures after == ReadEvent(w, before, event)
  {
    after := before;
    var decoded := w.utf8(event);
    if decoded.None? {
      return;
    }
    var lines := Lines(decoded.value);
    for i := 0 to |lines|
      invariant !after.stopped && RunLines(w, after, lines[i..]) == RunLines(w, before, lines)
    {
      after := Then(after, LineAction(w, lines[i]));
      if after.stopped {
        return;
      }
    }
  }

  /** Take every complete event out of the buffer, reading each as it is taken, up to a stop. */
  method DrainBuffer(w: Wire, buffer: Bytes, before: Out) returns (rest: Bytes, after: Out)
    requires !before.stopped
    ensures after == ReadOn(EventReader(w), before, Drain(Cut, buffer).units)
    ensures !after.stopped ==> rest == Drain(Cut, buffer).rest
  {
    rest, after := buffer, before;
    ghost var whole := Drain(Cut, buffer);
    while true
      invariant !after.stopped
      invariant ReadOn(EventReader(w), after, Drain(Cut, rest).units) == ReadOn(EventReader(w), before, whole.units)
      invariant Drain(Cut, rest).rest == whole.rest
      decreases |rest|
    {
      var end := FindEventTerminator(rest);
      if end.None? {
        return;
      }
      var cut := end.value.at + end.value.len;
      var event := rest[..cut];
      TailAppend([event], Drain(Cut, rest[cut..]).units);
      AppendEmpty(Drain(Cut, rest[cut..]).units);
      after := ReadLines(w, after, event);
      rest := rest[cut..];
      if after.stopped {
        return;
      }
    }
  }

  /** The token stream of a chunked body: that of the body read whole. */
  method SseToTokens(w: Wire, chunks: seq<Chunk>) returns (tokens: seq<string>, error: Option<string>)
    ensures Deliver(Cut, EventReader(w), [], START, chunks).0.tokens == tokens
    ensures Deliver(Cut, EventReader(w), [], START, chunks).1 == error
    ensures Outcome(Cut, EventReader(w), chunks).0.tokens == tokens
    ensures Outcome(Cut, EventReader(w), chunks).1 == error
  {
    CutIsStable();
    IncrementalIsWhole(Cut, EventReader(w), chunks);
    ghost var result := Deliver(Cut, EventReader(w), [], START, chunks);
    var out, buffer: Bytes := START, [];
    for i := 0 to |chunks|
      invariant !out.stopped
      invariant Deliver(Cut, EventReader(w), buffer, out, chunks[i..]) == result
    {
      assert chunks[i..][1..] == chunks[i + 1..];
      if chunks[i].Broken? {
        return out.tokens, Some(chunks[i].reason);
      }
      buffer, out := DrainBuffer(w, buffer + chunks[i].bytes, out);
      if out.stopped {
        return out.tokens, None;
      }
    }
    return out.tokens, None;
  }
}
