/** Cutting a growing buffer into units, for any cutter that bytes still to come cannot sway. */
module Framing {
  import opened Seqs
  import opened Wrappers

  type Bytes = seq<bv8>

  /** Length of the first complete unit of a buffer, or zero when there is none yet. */
  type Cutter = Bytes -> nat

  /** A complete unit lies within the buffer and is cut the same whatever follows it, or
      nothing does. */
  ghost predicate Stable(cut: Cutter) {
    && (forall a: Bytes :: cut(a) <= |a|)
    && (forall a: Bytes {:trigger a[..cut(a)]} :: cut(a) > 0 ==> cut(a[..cut(a)]) == cut(a))
    && (forall a: Bytes, b: Bytes {:trigger cut(a + b)} :: cut(a) > 0 ==> cut(a + b) == cut(a))
  }

  datatype Drained = Drained(units: seq<Bytes>, rest: Bytes)

  /** Cut every complete unit off the front. */
  function Drain(cut: Cutter, buf: Bytes): Drained
    decreases |buf|
  {
    var n := cut(buf);
    if n == 0 || n > |buf| then Drained([], buf)
    else var d := Drain(cut, buf[n..]);
         Drained([buf[..n]] + d.units, d.rest)
  }

  function Concat(parts: seq<Bytes>): Bytes {
    if parts == [] then [] else parts[0] + Concat(parts[1..])
  }

  /** A unit is cut off whole, and nothing shorter. */
  predicate IsUnit(cut: Cutter, e: Bytes) {
    cut(e) == |e| > 0
  }

  /** Draining loses and invents nothing. */
  lemma {:induction false} DrainConserves(cut: Cutter, buf: Bytes)
    ensures Concat(Drain(cut, buf).units) + Drain(cut, buf).rest == buf
    decreases |buf|
  {
    var n := cut(buf);
    if 0 < n <= |buf| {
      var d := Drain(cut, buf[n..]);
      DrainConserves(cut, buf[n..]);
      AppendAssociates(buf[..n], Concat(d.units), d.rest);
      assert ([buf[..n]] + d.units)[1..] == d.units;
    }
  }

  /** It leaves no complete unit behind. */
  lemma {:induction false} DrainLeavesNoUnit(cut: Cutter, buf: Bytes)
    requires Stable(cut)
    ensures cut(Drain(cut, buf).rest) == 0
    decreases |buf|
  {
    if cut(buf) > 0 {
      DrainLeavesNoUnit(cut, buf[cut(buf)..]);
    }
  }

  /** Everything cut off is a single complete unit. */
  lemma {:induction false} DrainCutsUnits(cut: Cutter, buf: Bytes)
    requires Stable(cut)
    ensures forall e | e in Drain(cut, buf).units :: IsUnit(cut, e)
    decreases |buf|
  {
    var n := cut(buf);
    if n > 0 {
      var e := buf[..n];
      assert cut(e) == n;
      DrainCutsUnits(cut, buf[n..]);
    }
  }

  /** A unit at the front is drained first. */
  lemma DrainStep(cut: Cutter, e: Bytes, tail: Bytes)
    requires Stable(cut) && IsUnit(cut, e)
    ensures Drain(cut, e + tail) == Drained([e] + Drain(cut, tail).units, Drain(cut, tail).rest)
  {
    assert cut(e + tail) == |e|;
    assert (e + tail)[..|e|] == e && (e + tail)[|e|..] == tail;
  }

  lemma {:induction false} UnitsAreDrained(cut: Cutter, units: seq<Bytes>, rest: Bytes)
    requires Stable(cut) && cut(rest) == 0 && forall e | e in units :: IsUnit(cut, e)
    ensures Drain(cut, Concat(units) + rest) == Drained(units, rest)
    decreases |units|
  {
    if units == [] {
      assert Concat(units) + rest == rest;
    } else {
      UnitsAreDrained(cut, units[1..], rest);
      AppendAssociates(units[0], Concat(units[1..]), rest);
      DrainStep(cut, units[0], Concat(units[1..]) + rest);
      HeadTail(units);
    }
  }

  /** Draining is the only way to part a buffer into complete units and a rest without any. */
  lemma DrainedExactly(cut: Cutter, buf: Bytes, units: seq<Bytes>, rest: Bytes)
    requires Stable(cut)
    ensures Drain(cut, buf) == Drained(units, rest) <==>
              buf == Concat(units) + rest && cut(rest) == 0 && forall e | e in units :: IsUnit(cut, e)
  {
    DrainConserves(cut, buf);
    DrainLeavesNoUnit(cut, buf);
    DrainCutsUnits(cut, buf);
    if cut(rest) == 0 && forall e | e in units :: IsUnit(cut, e) {
      UnitsAreDrained(cut, units, rest);
    }
  }

  /** Units put one after another are drained one by one, and nothing else is. */
  lemma UnitsRoundTrip(cut: Cutter, units: seq<Bytes>)
    requires Stable(cut)
    ensures Drain(cut, Concat(units)) == Drained(units, []) <==> forall e | e in units :: IsUnit(cut, e)
  {
    var empty: Bytes := [];
    assert cut(empty) <= |empty|;
    AppendEmpty(Concat(units));
    DrainedExactly(cut, Concat(units), units, empty);
  }

  /** So are bodies that each come in a frame, exactly if every frame is a unit. */
  lemma FramesRoundTrip(cut: Cutter, frame: Bytes -> Bytes, good: Bytes -> bool, bodies: seq<Bytes>)
    requires Stable(cut) && forall b: Bytes :: IsUnit(cut, frame(b)) <==> good(b)
    ensures Drain(cut, Concat(Map(frame, bodies))) == Drained(Map(frame, bodies), []) <==> forall b | b in bodies :: good(b)
  {
    var units := Map(frame, bodies);
    UnitsRoundTrip(cut, units);
    assert forall i | 0 <= i < |bodies| :: units[i] in units && bodies[i] in bodies;
  }

  /** Draining what has come and then what follows is draining it all at once. */
  lemma {:induction false} DrainAppend(cut: Cutter, a: Bytes, b: Bytes)
    requires Stable(cut)
    ensures Drain(cut, a + b) == Drained(Drain(cut, a).units + Drain(cut, Drain(cut, a).rest + b).units,
                                         Drain(cut, Drain(cut, a).rest + b).rest)
    decreases |a|
  {
    var n := cut(a);
    if n > 0 {
      assert cut(a + b) == n;
      DropAppend(a, b, n);
      DrainAppend(cut, a[n..], b);
      AppendAssociates([a[..n]], Drain(cut, a[n..]).units, Drain(cut, Drain(cut, a).rest + b).units);
    }
  }

  // ---------- reading the units ----------

  /** Tokens emitted so far, and whether the stream asked to stop. */
  datatype Out = Out(tokens: seq<string>, stopped: bool)

  const START := Out([], false)

  /** How one unit continues an output. */
  type Reader = (Out, Bytes) -> Out

  /** Units read in order until the stream stops. */
  function ReadOn(read: Reader, out: Out, units: seq<Bytes>): Out
    decreases |units|
  {
    if units == [] || out.stopped then out else ReadOn(read, read(out, units[0]), units[1..])
  }

  /** Reading in two goes is reading in one; after a stop the second go changes nothing. */
  lemma {:induction false} ReadOnAppend(read: Reader, out: Out, a: seq<Bytes>, b: seq<Bytes>)
    ensures ReadOn(read, out, a + b) == ReadOn(read, ReadOn(read, out, a), b)
    decreases |a|
  {
    if a == [] {
      AppendEmpty(b);
    } else if !out.stopped {
      TailAppend(a, b);
      ReadOnAppend(read, read(out, a[0]), a[1..], b);
    }
  }

  // ---------- delivery in chunks ----------

  datatype Chunk = Data(bytes: Bytes) | Broken(reason: string)

  datatype Delivery = Delivery(bytes: Bytes, broken: Option<string>)

  /** The bytes received before the connection broke, and why it broke. */
  function Received(chunks: seq<Chunk>): Delivery {
    if chunks == [] then Delivery([], None)
    else match chunks[0]
         case Broken(e) => Delivery([], Some(e))
         case Data(b) => var d := Received(chunks[1..]);
                         d.(bytes := b + d.bytes)
  }

  /** What the bytes of a delivery come to, read whole; a stop hides any later break. */
  function Outcome(cut: Cutter, read: Reader, chunks: seq<Chunk>): (Out, Option<string>) {
    var d := Received(chunks);
    var out := ReadOn(read, START, Drain(cut, d.bytes).units);
    (out, if out.stopped then None else d.broken)
  }

  /** The reader as it runs: each chunk is added to what the last one left, every complete unit is
      cut off and read, and what is left waits for the next chunk. */
  function Deliver(cut: Cutter, read: Reader, buffer: Bytes, out: Out, chunks: seq<Chunk>): (Out, Option<string>)
    decreases |chunks|
  {
    if chunks == [] then (out, None)
    else match chunks[0]
         case Broken(reason) => (out, Some(reason))
         case Data(bytes) =>
           var d := Drain(cut, buffer + bytes);
           var next := ReadOn(read, out, d.units);
           if next.stopped then (next, None) else Deliver(cut, read, d.rest, next, chunks[1..])
  }

  /** Chunk by chunk from a drained buffer, the reader gets what it would get from the buffer and
      all the bytes to come at once. */
  lemma {:induction false} DeliverFrom(cut: Cutter, read: Reader, buffer: Bytes, out: Out, chunks: seq<Chunk>)
    requires Stable(cut) && !out.stopped && Drain(cut, buffer).units == []
    ensures var d := Received(chunks);
            var end := ReadOn(read, out, Drain(cut, buffer + d.bytes).units);
            Deliver(cut, read, buffer, out, chunks) == (end, if end.stopped then None else d.broken)
    decreases |chunks|
  {
    if chunks == [] || chunks[0].Broken? {
      AppendEmpty(buffer);
    } else {
      var bytes, more := chunks[0].bytes, Received(chunks[1..]).bytes;
      var d := Drain(cut, buffer + bytes);
      var next := ReadOn(read, out, d.units);
      AppendAssociates(buffer, bytes, more);
      DrainAppend(cut, buffer + bytes, more);
      ReadOnAppend(read, out, d.units, Drain(cut, d.rest + more).units);
      if !next.stopped {
        DrainLeavesNoUnit(cut, buffer + bytes);
        DeliverFrom(cut, read, d.rest, next, chunks[1..]);
      }
    }
  }

  /** So a delivery read in chunks is the delivery read whole. */
  lemma IncrementalIsWhole(cut: Cutter, read: Reader, chunks: seq<Chunk>)
    requires Stable(cut)
    ensures Deliver(cut, read, [], START, chunks) == Outcome(cut, read, chunks)
  {
    var empty: Bytes := [];
    assert cut(empty) <= |empty|;
    DeliverFrom(cut, read, empty, START, chunks);
    AppendEmpty(Received(chunks).bytes);
  }

  /** What the reader emits depends only on the bytes received and on the break, if any: not on how
      they were cut into chunks. */
  lemma ChunkingInvariance(cut: Cutter, read: Reader, a: seq<Chunk>, b: seq<Chunk>)
    requires Stable(cut) && Received(a) == Received(b)
    ensures Deliver(cut, read, [], START, a) == Deliver(cut, read, [], START, b)
  {
    IncrementalIsWhole(cut, read, a);
    IncrementalIsWhole(cut, read, b);
  }
}
