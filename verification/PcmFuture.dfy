/**
  What the incremental reader will hand over, exactly as it buffers and carries: its whole future
  as a function of its cursors, its buffer and the pipe. It is the reference decode as long as no
  read splits a sample, and never a clean end once one does.
 */
module PcmFuture {
  import opened Options
  import opened Quotients
  import opened PcmReference

  const INPUT_BYTES: nat := 8192

  datatype Reader = Reader(
    buffer: seq<bv8>,
    pos: nat,
    len: nat,
    carryLen: nat,
    script: seq<Event>,
    remaining: Option<nat>,
    heard: nat)

  ghost predicate Sound<S>(f: Format<S>, x: Reader) {
    && Proper(f) && |x.buffer| == INPUT_BYTES && x.pos <= x.len <= INPUT_BYTES && x.carryLen < f.width
    && Live(x.script)
  }

  /** The carry after the buffer ran out: the bytes of a split sample, or whatever count was left before. */
  function CarryOf(x: Reader): nat {
    if x.pos < x.len then x.len - x.pos else x.carryLen
  }

  function Overwrite(buffer: seq<bv8>, at: nat, bytes: seq<bv8>): seq<bv8>
    requires at + |bytes| <= |buffer|
  {
    buffer[..at] + bytes + buffer[at + |bytes|..]
  }

  function AtEnd<S>(f: Format<S>, carry: nat, remaining: Option<nat>, heard: nat): Verdict {
    if carry != 0 || (remaining.Some? && remaining.value != 0) then Fault(InvalidOutput)
    else if heard == 0 then Fault(f.emptyError)
    else End
  }

  datatype Refilled = Over(verdict: Verdict) | Filled(reader: Reader)

  /**
    Nothing whole is buffered. New bytes go behind the carry; the carried bytes are not moved, so
    the front of the buffer keeps what it held.
   */
  function Refill<S>(f: Format<S>, x: Reader): Refilled
    requires Proper(f) && |x.buffer| == INPUT_BYTES && x.pos <= x.len && x.len - x.pos < f.width && x.carryLen < f.width
  {
    var c := CarryOf(x);
    if x.remaining == Some(0) then
      match TailEnding(x.script)
      case Failed(e) => Over(Fault(e))
      case _ => Over(AtEnd(f, c, x.remaining, x.heard))
    else if x.script == [] then Over(AtEnd(f, c, x.remaining, x.heard))
    else if x.script[0].Fail? then Over(Fault(x.script[0].error))
    else
      var n := Min(|x.script[0].bytes|, Within(INPUT_BYTES - c, x.remaining));
      Filled(Reader(Overwrite(x.buffer, c, x.script[0].bytes[..n]), 0, c + n, c,
                    Rest(x.script, n), Less(x.remaining, n), x.heard))
  }

  lemma FilledShrinks<S>(f: Format<S>, x: Reader)
    requires Sound(f, x) && x.len - x.pos < f.width && Refill(f, x).Filled?
    ensures Sound(f, Refill(f, x).reader) && Bytes(Refill(f, x).reader.script) < Bytes(x.script)
  {
    var n := Min(|x.script[0].bytes|, Within(INPUT_BYTES - CarryOf(x), x.remaining));
    assert n > 0;
    RestShrinks(x.script, n);
  }

  function Consumed(x: Reader, width: nat): Reader {
    x.(pos := x.pos + width, heard := x.heard + 1)
  }

  /** Everything later reads will hand over, and how the stream then ends. */
  ghost function Future<S>(f: Format<S>, x: Reader): Outlook<S>
    requires Sound(f, x)
    decreases Bytes(x.script), x.len - x.pos
  {
    if x.len - x.pos >= f.width then
      var value := f.decode(x.buffer[x.pos..x.pos + f.width]);
      var rest := Future(f, Consumed(x, f.width));
      if f.finite(value) then Outlook([value] + rest.samples, rest.verdict) else Outlook([], Fault(InvalidOutput))
    else
      match Refill(f, x)
      case Over(verdict) => Outlook([], verdict)
      case Filled(y) =>
        FilledShrinks(f, x);
        Future(f, y)
  }

  // ---- Against the reference ----

  /** The reference decode of what is buffered and still to come. */
  function Judged<S>(f: Format<S>, x: Reader): Outlook<S>
    requires Proper(f) && x.pos <= x.len <= |x.buffer|
  {
    var g := Gather(x.script, x.remaining);
    Judge(f, Payload(x.buffer[x.pos..x.len] + g.bytes, g.ending), x.heard)
  }

  /** No read has split a sample and none inside the payload will. */
  predicate Whole(width: nat, x: Reader)
    requires width > 0 && x.pos <= x.len
  {
    x.carryLen == 0 && (x.len - x.pos) % width == 0 && Aligned(width, x.script, x.remaining)
  }

  /** No read has split a sample and none will, except that the last one may be cut short. */
  predicate Untorn(width: nat, x: Reader)
    requires width > 0 && x.pos <= x.len
  {
    && x.carryLen == 0
    && if (x.len - x.pos) % width == 0 then Unsplit(width, x.script, x.remaining)
       else Gather(x.script, x.remaining).bytes == []
  }

  /** How many samples come whole before the first split. */
  function IntactSamples(width: nat, x: Reader): nat
    requires width > 0 && x.pos <= x.len
  {
    var buffered := x.len - x.pos;
    SamplesIn(if buffered % width == 0 then buffered + Intact(width, x.script, x.remaining) else buffered, width)
  }

  lemma IntactStep<S>(f: Format<S>, x: Reader)
    requires Sound(f, x) && x.len - x.pos >= f.width
    ensures Untorn(f.width, Consumed(x, f.width)) == Untorn(f.width, x)
    ensures IntactSamples(f.width, Consumed(x, f.width)) == IntactSamples(f.width, x) - 1
  {
    var w, buffered := f.width, x.len - x.pos;
    QuotientIs(w, w, 1, 0);
    ModuloDifference(buffered, w, w);
    ModuloDifference(buffered + Intact(w, x.script, x.remaining), w, w);
  }

  lemma WholeStep<S>(f: Format<S>, x: Reader)
    requires Sound(f, x) && x.len - x.pos >= f.width
    ensures Whole(f.width, Consumed(x, f.width)) == Whole(f.width, x)
  {
    QuotientIs(f.width, f.width, 1, 0);
    ModuloDifference(x.len - x.pos, f.width, f.width);
  }

  /** Taking one sample off the buffer is taking it off the payload. */
  lemma BufferStep<S>(f: Format<S>, buffer: seq<bv8>, pos: nat, len: nat, g: Payload, heard: nat)
    requires Proper(f) && pos + f.width <= len <= |buffer|
    ensures var value := f.decode(buffer[pos..pos + f.width]);
            var rest := Judge(f, Payload(buffer[pos + f.width..len] + g.bytes, g.ending), heard + 1);
            Judge(f, Payload(buffer[pos..len] + g.bytes, g.ending), heard) ==
            if f.finite(value) then Outlook([value] + rest.samples, rest.verdict) else Outlook([], Fault(InvalidOutput))
  {
    var bytes := buffer[pos..len] + g.bytes;
    JudgeStep(f, Payload(bytes, g.ending), heard);
    assert bytes[..f.width] == buffer[pos..pos + f.width];
    assert bytes[f.width..] == buffer[pos + f.width..len] + g.bytes;
  }

  /** One delivery at the start of an empty buffer: the payload and what is whole in it are as before. */
  lemma Delivered(width: nat, script: seq<Event>, remaining: Option<nat>, n: nat)
    requires (width == 2 || width == 4) && script != [] && script[0].Data? && remaining != Some(0)
    requires n == Min(|script[0].bytes|, Within(INPUT_BYTES, remaining)) && n > 0
    ensures var later := Gather(Rest(script, n), Less(remaining, n));
            Gather(script, remaining) == Payload(script[0].bytes[..n] + later.bytes, later.ending)
    ensures Aligned(width, script, remaining) <==> n % width == 0 && Aligned(width, Rest(script, n), Less(remaining, n))
    ensures Unsplit(width, script, remaining) <==>
            if n % width == 0 then Unsplit(width, Rest(script, n), Less(remaining, n))
            else Gather(Rest(script, n), Less(remaining, n)).bytes == []
    ensures Intact(width, script, remaining) ==
            if n % width == 0 then n + Intact(width, Rest(script, n), Less(remaining, n)) else WholePart(n, width)
  {
    GatherAfter(script, remaining, n);
    if n % width == 0 {
      AlignedAfter(width, script, remaining, n);
      UnsplitAfter(width, script, remaining, n);
      IntactAfter(width, script, remaining, n);
    } else {
      DeliveryTorn(width, script, remaining, INPUT_BYTES);
      TornDelivery(script, remaining, n);
    }
  }

  lemma TornDelivery(script: seq<Event>, remaining: Option<nat>, n: nat)
    requires script != [] && script[0].Data? && remaining != Some(0) && 0 < n == Within(|script[0].bytes|, remaining)
    ensures Gather(Rest(script, n), Less(remaining, n)).bytes == Gather(script[1..], Less(remaining, n)).bytes
  {
  }

  /** Overwriting one byte further. */
  lemma OverwriteNext(buffer: seq<bv8>, at: nat, bytes: seq<bv8>, i: nat)
    requires i < |bytes| && at + |bytes| <= |buffer|
    ensures Overwrite(buffer, at, bytes[..i])[at + i := bytes[i]] == Overwrite(buffer, at, bytes[..i + 1])
  {
    assert bytes[..i + 1] == bytes[..i] + [bytes[i]];
  }

  lemma OverwriteAt(buffer: seq<bv8>, at: nat, bytes: seq<bv8>)
    requires at + |bytes| <= |buffer|
    ensures Overwrite(buffer, at, bytes)[at..at + |bytes|] == bytes
    ensures Overwrite(buffer, at, bytes)[..at] == buffer[..at]
  {
  }

  lemma EmptyIsWhole<S>(f: Format<S>, x: Reader)
    requires Sound(f, x) && x.len - x.pos < f.width
    ensures (x.len - x.pos) % f.width == 0 <==> x.pos == x.len
    ensures SamplesIn(x.len - x.pos, f.width) == 0
  {
    QuotientIs(x.len - x.pos, f.width, 0, x.len - x.pos);
  }

  lemma WholeFilled<S>(f: Format<S>, x: Reader)
    requires Sound(f, x) && x.pos == x.len && x.carryLen == 0 && Refill(f, x).Filled?
    ensures var y := Refill(f, x).reader;
            && Judged(f, y) == Judged(f, x) && Whole(f.width, y) == Whole(f.width, x)
            && Untorn(f.width, y) == Untorn(f.width, x) && IntactSamples(f.width, y) == IntactSamples(f.width, x)
  {
    var n := Min(|x.script[0].bytes|, Within(INPUT_BYTES, x.remaining));
    var y, g := Refill(f, x).reader, Gather(x.script, x.remaining);
    assert n > 0;
    Delivered(f.width, x.script, x.remaining, n);
    OverwriteAt(x.buffer, 0, x.script[0].bytes[..n]);
    assert x.buffer[x.pos..x.len] + g.bytes == g.bytes;
    assert y.buffer[0..n] == x.script[0].bytes[..n];
  }

  lemma WholeOver<S>(f: Format<S>, x: Reader)
    requires Sound(f, x) && x.pos == x.len && x.carryLen == 0 && Refill(f, x).Over?
    ensures Judged(f, x) == Outlook([], Refill(f, x).verdict)
  {
    TailNeverShort(x.script);
    assert x.buffer[x.pos..x.len] + [] == [];
  }

  /** A last sample cut short ends the stream as the reference says. */
  lemma TornOver<S>(f: Format<S>, x: Reader)
    requires Sound(f, x) && 0 < x.len - x.pos < f.width && Gather(x.script, x.remaining).bytes == []
    ensures Refill(f, x).Over? && Judged(f, x) == Outlook([], Refill(f, x).verdict)
  {
    NothingAhead(x.script, x.remaining);
    TailNeverShort(x.script);
    var bytes := x.buffer[x.pos..x.len];
    assert bytes + [] == bytes;
    QuotientIs(|bytes|, f.width, 0, |bytes|);
  }

  /** As long as no sample is split between reads, the reader hands over the reference decode and ends as it does. */
  lemma {:induction false} FutureIsReference<S>(f: Format<S>, x: Reader)
    requires Sound(f, x) && Untorn(f.width, x)
    ensures Future(f, x) == Judged(f, x)
    decreases Bytes(x.script), x.len - x.pos
  {
    if x.len - x.pos >= f.width {
      IntactStep(f, x);
      JudgedFirst(f, x);
      FutureIsReference(f, Consumed(x, f.width));
    } else if x.pos < x.len {
      EmptyIsWhole(f, x);
      TornOver(f, x);
    } else if Refill(f, x).Filled? {
      FilledShrinks(f, x);
      WholeFilled(f, x);
      FutureIsReference(f, Refill(f, x).reader);
    } else {
      WholeOver(f, x);
    }
  }

  /** Two outlooks share their first k samples, unless they are the same altogether. */
  predicate AgreeOn<S(==)>(a: Outlook<S>, b: Outlook<S>, k: nat) {
    a == b || (k <= |a.samples| && k <= |b.samples| && a.samples[..k] == b.samples[..k])
  }

  lemma AgreeOnMore<S>(a: Outlook<S>, b: Outlook<S>, k: nat, value: S)
    requires AgreeOn(a, b, k)
    ensures AgreeOn(Outlook([value] + a.samples, a.verdict), Outlook([value] + b.samples, b.verdict), k + 1)
  {
    if k <= |a.samples| && k <= |b.samples| {
      assert ([value] + a.samples)[..k + 1] == [value] + a.samples[..k];
      assert ([value] + b.samples)[..k + 1] == [value] + b.samples[..k];
    }
  }

  /** One sample more in front of both: they agree on one more, or are both a fault. */
  lemma AgreeBefore<S>(f: Format<S>, value: S, a: Outlook<S>, b: Outlook<S>, all: Outlook<S>, ref: Outlook<S>, k: nat)
    requires AgreeOn(a, b, k)
    requires all == if f.finite(value) then Outlook([value] + a.samples, a.verdict)
            else Outlook([], Fault(InvalidOutput))
    requires ref == if f.finite(value) then Outlook([value] + b.samples, b.verdict)
            else Outlook([], Fault(InvalidOutput))
    ensures AgreeOn(all, ref, k + 1)
  {
    AgreeOnMore(a, b, k, value);
  }

  /** The future and the reference seen one sample on. */
  lemma FutureFirst<S>(f: Format<S>, x: Reader)
    requires Sound(f, x) && x.len - x.pos >= f.width
    ensures var value, rest := f.decode(x.buffer[x.pos..x.pos + f.width]), Future(f, Consumed(x, f.width));
            Future(f, x) ==
            if f.finite(value) then Outlook([value] + rest.samples, rest.verdict) else Outlook([], Fault(InvalidOutput))
  {
  }

  lemma RightBefore<S>(f: Format<S>, x: Reader, k: nat)
    requires Sound(f, x) && x.len - x.pos >= f.width
    requires var y := Consumed(x, f.width); AgreeOn(Future(f, y), Judged(f, y), k)
    ensures AgreeOn(Future(f, x), Judged(f, x), k + 1)
  {
    var value, y := f.decode(x.buffer[x.pos..x.pos + f.width]), Consumed(x, f.width);
    FutureFirst(f, x);
    JudgedFirst(f, x);
    AgreeBefore(f, value, Future(f, y), Judged(f, y), Future(f, x), Judged(f, x), k);
  }

  lemma JudgedFirst<S>(f: Format<S>, x: Reader)
    requires Sound(f, x) && x.len - x.pos >= f.width
    ensures var value, rest := f.decode(x.buffer[x.pos..x.pos + f.width]), Judged(f, Consumed(x, f.width));
            Judged(f, x) ==
            if f.finite(value) then Outlook([value] + rest.samples, rest.verdict) else Outlook([], Fault(InvalidOutput))
  {
    BufferStep(f, x.buffer, x.pos, x.len, Gather(x.script, x.remaining), x.heard);
  }

  /** Whatever is split later, the samples that come whole before the first split are handed over right. */
  lemma {:induction false} RightUntilSplit<S>(f: Format<S>, x: Reader)
    requires Sound(f, x) && x.carryLen == 0
    ensures AgreeOn(Future(f, x), Judged(f, x), IntactSamples(f.width, x))
    decreases Bytes(x.script), x.len - x.pos
  {
    if x.len - x.pos >= f.width {
      IntactStep(f, x);
      RightUntilSplit(f, Consumed(x, f.width));
      RightBefore(f, x, IntactSamples(f.width, x) - 1);
    } else if x.pos < x.len {
      EmptyIsWhole(f, x);
      assert IntactSamples(f.width, x) == 0;
    } else if Refill(f, x).Filled? {
      FilledShrinks(f, x);
      WholeFilled(f, x);
      var y := Refill(f, x).reader;
      RightUntilSplit(f, y);
    } else {
      WholeOver(f, x);
    }
  }

  lemma SplitFilled<S>(f: Format<S>, x: Reader)
    requires Sound(f, x) && x.len - x.pos < f.width && !Whole(f.width, x)
    ensures Refill(f, x).Filled? ==> !Whole(f.width, Refill(f, x).reader)
    ensures Refill(f, x).Over? ==> Refill(f, x).verdict != End
  {
    EmptyIsWhole(f, x);
    if CarryOf(x) == 0 && Refill(f, x).Filled? {
      WholeFilled(f, x);
    }
  }

  /** Once a read has split a sample, or one inside the payload will, the stream has no clean end. */
  lemma {:induction false} SplitNeverEnds<S>(f: Format<S>, x: Reader)
    requires Sound(f, x) && !Whole(f.width, x)
    ensures Future(f, x).verdict != End
    decreases Bytes(x.script), x.len - x.pos
  {
    if x.len - x.pos >= f.width {
      WholeStep(f, x);
      SplitNeverEnds(f, Consumed(x, f.width));
    } else {
      SplitFilled(f, x);
      if Refill(f, x).Filled? {
        FilledShrinks(f, x);
        SplitNeverEnds(f, Refill(f, x).reader);
      }
    }
  }

  /** The stream ends cleanly if and only if no sample is split between reads and the reference ends cleanly. */
  lemma CleanEndExactly<S>(f: Format<S>, x: Reader)
    requires Sound(f, x)
    ensures Future(f, x).verdict == End <==> Untorn(f.width, x) && Judged(f, x).verdict == End
  {
    if Untorn(f.width, x) {
      FutureIsReference(f, x);
    } else {
      if Whole(f.width, x) {
        AlignedIsUnsplit(f.width, x.script, x.remaining);
      }
      SplitNeverEnds(f, x);
    }
  }

  // ---- What a split sample does ----

  /** A new stream over a script. */
  ghost predicate Opened(x: Reader, script: seq<Event>, remaining: Option<nat>) {
    && |x.buffer| == INPUT_BYTES && x.pos == x.len == x.carryLen == x.heard == 0
    && x.script == script && x.remaining == remaining
  }

  lemma OpenedJudged<S>(f: Format<S>, x: Reader, script: seq<Event>, remaining: Option<nat>)
    requires Proper(f) && Opened(x, script, remaining)
    ensures Judged(f, x) == Judge(f, Gather(script, remaining), 0)
    ensures Untorn(f.width, x) == Unsplit(f.width, script, remaining)
    ensures IntactSamples(f.width, x) == SamplesIn(Intact(f.width, script, remaining), f.width)
  {
    var g := Gather(script, remaining);
    assert x.buffer[0..0] + g.bytes == g.bytes;
  }

  /** Two whole 16-bit samples whose second is split between two reads. */
  const SPLIT: seq<Event> := [Data([1, 0, 2]), Data([0])]

  lemma SplitReference<S>(f: Format<S>)
    requires f.width == 2 && f.finite(f.decode([1, 0])) && f.finite(f.decode([2, 0]))
    ensures Judge(f, Gather(SPLIT, None), 0) == Outlook([f.decode([1, 0]), f.decode([2, 0])], End)
  {
    var bytes: seq<bv8> := [1, 0, 2, 0];
    assert SPLIT[1..] == [Data([0])] && SPLIT[1..][1..] == [];
    assert Gather(SPLIT[1..], None).bytes == [0] + [];
    assert Gather(SPLIT, None).bytes == [1, 0, 2] + [0] == bytes;
    var first, second := Payload(bytes, Complete), Payload([2, 0], Complete);
    assert bytes[..2] == [1, 0] && bytes[2..] == second.bytes;
    assert second.bytes[..2] == [2, 0] && second.bytes[2..] == [];
    JudgeStep(f, first, 0);
    JudgeStep(f, second, 1);
    assert Judge(f, Payload([], Complete), 2) == Outlook([], End);
  }

  /** The reader with both halves of the second sample delivered: the front byte is still the first sample's. */
  lemma SplitRefills<S>(f: Format<S>, x: Reader)
    requires f.width == 2 && Opened(x, SPLIT, None)
    ensures var a := Refill(f, x);
            && a.Filled? && a.reader == Reader(a.reader.buffer, 0, 3, 0, [Data([0])], None, 0)
            && |a.reader.buffer| == INPUT_BYTES && a.reader.buffer[..3] == [1, 0, 2]
  {
    assert SPLIT[1..] == [Data([0])] && SPLIT[0].bytes[..3] == [1, 0, 2];
    OverwriteAt(x.buffer, 0, [1, 0, 2]);
  }

  lemma StaleRefills<S>(f: Format<S>, b: Reader)
    requires f.width == 2 && |b.buffer| == INPUT_BYTES && b.buffer[..3] == [1, 0, 2]
    requires b == Reader(b.buffer, 2, 3, 0, [Data([0])], None, 1)
    ensures var c := Refill(f, b);
            && c.Filled? && c.reader == Reader(c.reader.buffer, 0, 2, 1, [], None, 1)
            && |c.reader.buffer| == INPUT_BYTES && c.reader.buffer[..2] == [1, 0]
  {
    assert [Data([0])][0].bytes[..1] == [0];
    OverwriteAt(b.buffer, 1, [0]);
    var buffer := Refill(f, b).reader.buffer;
    assert buffer[0] == buffer[..1][0] == b.buffer[..1][0] == b.buffer[..3][0];
    assert buffer[1] == buffer[1..2][0];
  }

  lemma StaleFuture<S>(f: Format<S>, c: Reader)
    requires f.width == 2 && f.finite(f.decode([1, 0])) && |c.buffer| == INPUT_BYTES && c.buffer[..2] == [1, 0]
    requires c == Reader(c.buffer, 0, 2, 1, [], None, 1)
    ensures Sound(f, c) && Future(f, c) == Outlook([f.decode([1, 0])], Fault(InvalidOutput))
  {
    assert c.buffer[0..2] == [1, 0];
    assert Future(f, Consumed(c, 2)) == Outlook([], Fault(InvalidOutput));
  }

  /**
    What is handed over instead: the second sample is put together from the new byte and the byte
    the buffer began with, and the stream then fails. The reference has the right sample and a clean end.
   */
  lemma StaleSampleHeard<S>(f: Format<S>, x: Reader)
    requires f.width == 2 && f.finite(f.decode([1, 0])) && f.finite(f.decode([2, 0])) && Opened(x, SPLIT, None)
    ensures Sound(f, x) && Future(f, x) == Outlook([f.decode([1, 0]), f.decode([1, 0])], Fault(InvalidOutput))
    ensures Judged(f, x) == Outlook([f.decode([1, 0]), f.decode([2, 0])], End)
  {
    SplitReference(f);
    OpenedJudged(f, x, SPLIT, None);
    SplitRefills(f, x);
    var a := Refill(f, x).reader;
    var b := Consumed(a, 2);
    StaleRefills(f, b);
    StaleFuture(f, Refill(f, b).reader);
    assert a.buffer[0..2] == a.buffer[..3][..2] == [1, 0];
    assert Future(f, a) == Outlook([f.decode([1, 0])] + [f.decode([1, 0])], Fault(InvalidOutput));
  }
}
