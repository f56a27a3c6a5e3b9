/** The incremental PCM reader over a child process's pipe. */
module PcmStream {
  import opened Options
  import opened PcmReference
  import opened PcmFuture

  datatype Result<+T> = Ok(value: T) | Err(error: Error)

  /** The child's standard output: each read delivers part of the next chunk, or fails, or ends. */
  class Child {
    var script: seq<Event>

    constructor (script: seq<Event>)
      ensures this.script == script
    {
      this.script := script;
    }

    method Read(buffer: array<bv8>, at: nat, limit: nat) returns (r: Result<nat>)
      requires at + limit <= buffer.Length && limit > 0 && Live(script)
      modifies this, buffer
      ensures Live(script) && Bytes(script) <= old(Bytes(script))
      ensures old(script) == [] ==> r == Ok(0) && script == []
      ensures old(script) != [] && old(script)[0].Fail? ==> r == Err(old(script)[0].error) && script == old(script)[1..]
      ensures old(script) != [] && old(script)[0].Data? ==>
                var b := old(script)[0].bytes;
                var n := Min(|b|, limit);
                && r == Ok(n) && n > 0 && script == Rest(old(script), n) && Bytes(script) == old(Bytes(script)) - n
                && buffer[..] == Overwrite(old(buffer[..]), at, b[..n])
    {
      if script == [] {
        return Ok(0);
      }
      if script[0].Fail? {
        r := Err(script[0].error);
        script := script[1..];
        return;
      }
      var b := script[0].bytes;
      var n := Min(|b|, limit);
      ghost var start := buffer[..];
      for i := 0 to n
        invariant buffer[..] == Overwrite(start, at, b[..n][..i]) && script == old(script)
      {
        OverwriteNext(start, at, b[..n], i);
        buffer[at + i] := b[i];
      }
      assert b[..n][..n] == b[..n];
      RestShrinks(script, n);
      script := Rest(script, n);
      return Ok(n);
    }
  }

  datatype Progress = More | Done(result: Result<nat>)

  /** The samples handed over, and what is then left of an outlook. */
  ghost predicate Heard<S>(whole: Outlook<S>, heard: seq<S>, left: Outlook<S>) {
    whole == Outlook(heard + left.samples, left.verdict)
  }

  lemma HeardMore<S>(whole: Outlook<S>, heard: seq<S>, left: Outlook<S>, more: seq<S>, rest: Outlook<S>)
    requires Heard(whole, heard, left) && Heard(left, more, rest)
    ensures Heard(whole, heard + more, rest)
  {
    assert heard + (more + rest.samples) == heard + more + rest.samples;
  }

  /** A future seen one sample on. */
  lemma FutureStep<S>(f: Format<S>, x: Reader)
    requires Sound(f, x) && x.len - x.pos >= f.width
    ensures var value := f.decode(x.buffer[x.pos..x.pos + f.width]);
            if f.finite(value) then Heard(Future(f, x), [value], Future(f, Consumed(x, f.width)))
            else Future(f, x) == Outlook([], Fault(InvalidOutput))
  {
  }

  /** Between two states of one stream exactly these samples were handed over. */
  ghost predicate Along<S>(f: Format<S>, x: Reader, now: Reader, out: seq<S>)
    requires Sound(f, x) && Sound(f, now)
  {
    Heard(Future(f, x), out, Future(f, now))
  }

  lemma AlongStart<S>(f: Format<S>, x: Reader)
    requires Sound(f, x)
    ensures Along(f, x, x, [])
  {
    assert [] + Future(f, x).samples == Future(f, x).samples;
  }

  lemma AlongStep<S>(f: Format<S>, x: Reader, now: Reader, out: seq<S>)
    requires Sound(f, x) && Sound(f, now) && now.len - now.pos >= f.width && Along(f, x, now, out)
    ensures var value := f.decode(now.buffer[now.pos..now.pos + f.width]);
            if f.finite(value) then Along(f, x, Consumed(now, f.width), out + [value])
            else Future(f, x) == Outlook(out, Fault(InvalidOutput))
  {
    var value := f.decode(now.buffer[now.pos..now.pos + f.width]);
    FutureStep(f, now);
    if f.finite(value) {
      HeardMore(Future(f, x), out, Future(f, now), [value], Future(f, Consumed(now, f.width)));
    } else {
      assert out + [] == out;
    }
  }

  class PcmStream<S> {
    const format: Format<S>
    const child: Child
    const input: array<bv8>
    const carry: array<bv8>
    var remaining: Option<nat>
    var inputPos: nat
    var inputLen: nat
    var carryLen: nat
    var samplesRead: nat
    var ended: bool
    var deferred: Option<Error>

    /** The reader this object stands for. */
    ghost function Reading(): Reader
      reads this, child, input
    {
      Reader(input[..], inputPos, inputLen, carryLen, child.script, remaining, samplesRead)
    }

    ghost predicate Valid()
      reads this, child, input
    {
      Sound(format, Reading()) && carry.Length == 4 && input != carry
    }

    /** The outcome of a refill is the model's. */
    ghost predicate Refills(before: Reader, r: Progress)
      requires Sound(format, before) && before.len - before.pos < format.width
      reads this, child, input
    {
      var next := Refill(format, before);
      if next.Filled? then r == More && Reading() == next.reader && !ended
      else if next.verdict.End? then r == Done(Ok(0)) && ended
      else r == Done(Err(next.verdict.error)) && !ended
    }

    /** What later reads will hand over. */
    ghost function Prospect(): Outlook<S>
      requires Valid()
      reads this, child, input
    {
      if deferred.Some? then Outlook([], Fault(deferred.value))
      else if ended then Outlook([], End)
      else Future(format, Reading())
    }

    constructor (format: Format<S>, child: Child, remaining: Option<nat>)
      requires Proper(format) && Live(child.script)
      ensures Valid() && fresh(input) && fresh(carry)
      ensures this.format == format && this.child == child && !ended && deferred.None?
      ensures Opened(Reading(), child.script, remaining)
    {
      this.format := format;
      this.child := child;
      this.remaining := remaining;
      input := new bv8[INPUT_BYTES](_ => 0);
      carry := new bv8[4](_ => 0);
      inputPos, inputLen, carryLen, samplesRead, ended, deferred := 0, 0, 0, 0, false, None;
    }

    /** Decode the sample at the cursor and step over it. */
    method NextSample() returns (value: S)
      requires Valid() && inputLen - inputPos >= format.width
      modifies this`inputPos
      ensures Reading() == old(Reading()).(pos := old(inputPos) + format.width)
      ensures value == format.decode(old(Reading()).buffer[old(inputPos)..old(inputPos) + format.width])
    {
      value := format.decode(input[inputPos..inputPos + format.width]);
      assert input[..][inputPos..inputPos + format.width] == input[inputPos..inputPos + format.width];
      inputPos := inputPos + format.width;
    }

    /** Decode what is buffered into the output, up to its length or the first non-finite value. */
    method DecodeBuffered(output: array<S>) returns (written: nat, bad: bool)
      requires Valid() && output as object != input && output as object != carry
      modifies this`inputPos, this`samplesRead, output
      ensures Valid() && written <= output.Length
      ensures !bad ==> written == output.Length || inputLen - inputPos < format.width
      ensures !bad ==> Along(format, old(Reading()), Reading(), output[..written])
      ensures !bad && written == 0 ==> Reading() == old(Reading())
      ensures bad ==> Future(format, old(Reading())) == Outlook(output[..written], Fault(InvalidOutput))
    {
      written, bad := 0, false;
      ghost var x, now := Reading(), Reading();
      AlongStart(format, x);
      assert output[..0] == [];
      while inputLen - inputPos >= format.width && written < output.Length
        invariant written <= output.Length && now == Reading() && (written == 0 ==> now == x)
        invariant Sound(format, now) && Along(format, x, now, output[..written])
      {
        ghost var before := output[..written];
        var value := NextSample();
        AlongStep(format, x, now, before);
        if !format.finite(value) {
          bad := true;
          return;
        }
        output[written] := value;
        written := written + 1;
        samplesRead := samplesRead + 1;
        now := Consumed(now, format.width);
        assert output[..written] == before + [value];
      }
    }

    /** Save the bytes of a split sample aside and rewind; the buffer itself is left as it is. */
    method SaveCarry()
      requires Valid() && inputLen - inputPos < format.width
      modifies this`inputPos, this`inputLen, this`carryLen, carry
      ensures Valid()
      ensures Reading() == old(Reading()).(pos := 0, len := CarryOf(old(Reading())),
              carryLen := CarryOf(old(Reading())))
    {
      if inputPos < inputLen {
        carryLen := inputLen - inputPos;
        for i := 0 to carryLen
          invariant Reading() == old(Reading()).(carryLen := old(inputLen - inputPos))
        {
          carry[i] := input[inputPos + i];
        }
      }
      inputPos, inputLen := 0, carryLen;
    }

    method EndOrError() returns (r: Result<nat>)
      requires Valid() && !ended
      modifies this`ended
      ensures r == match AtEnd(format, carryLen, remaining, samplesRead) case End => Ok(0) case Fault(e) => Err(e)
      ensures ended == r.Ok?
    {
      if carryLen != 0 || (remaining.Some? && remaining.value != 0) {
        return Err(InvalidOutput);
      }
      if samplesRead == 0 {
        return Err(format.emptyError);
      }
      ended := true;
      return Ok(0);
    }

    /** Read past everything after the declared payload. */
    method DrainTail() returns (r: Result<nat>)
      requires Valid()
      modifies child
      ensures Valid()
      ensures r == match old(TailEnding(child.script)) case Failed(e) => Err(e) case _ => Ok(0)
    {
      var tail := new bv8[256](_ => 0);
      while true
        invariant Valid() && TailEnding(child.script) == old(TailEnding(child.script))
        decreases |child.script|, Bytes(child.script)
      {
        ghost var before := child.script;
        r := child.Read(tail, 0, 256);
        if r.Err? || r.value == 0 {
          return;
        }
        TailAfter(before, r.value);
      }
    }

    /** The buffer holds the carry only: read more of the payload behind it. */
    method Fill() returns (r: Progress)
      requires Valid() && inputPos == 0 && inputLen == carryLen && remaining != Some(0) && !ended
      modifies this`inputLen, this`remaining, this`ended, child, input
      ensures Valid() && Refills(old(Reading()), r)
    {
      ghost var x := Reading();
      RefillBehind(format, x);
      var limit := Within(INPUT_BYTES - carryLen, remaining);
      var count := child.Read(input, carryLen, limit);
      if count.Err? {
        return Done(count);
      }
      remaining := Less(remaining, count.value);
      inputLen := inputLen + count.value;
      if count.value == 0 {
        var result := EndOrError();
        return Done(result);
      }
      return More;
    }

    /** Nothing whole is buffered: get more behind the carry, or find out how the stream ends. */
    method GetMore() returns (r: Progress)
      requires Valid() && inputLen - inputPos < format.width && !ended
      modifies this`inputPos, this`inputLen, this`carryLen, this`remaining, this`ended, child, input, carry
      ensures Valid() && Refills(old(Reading()), r)
    {
      RefillRewound(format, Reading());
      SaveCarry();
      if remaining == Some(0) {
        var tail := DrainTail();
        if tail.Err? {
          return Done(tail);
        }
        var result := EndOrError();
        return Done(result);
      }
      r := Fill();
    }

    /** Return available samples; zero means the stream ended cleanly. */
    method Read(output: array<S>) returns (r: Result<nat>)
      requires Valid() && output as object != input && output as object != carry
      modifies this, child, input, carry, output
      ensures Valid()
      ensures output.Length == 0 ==> r == Err(InvalidRequest) && Prospect() == old(Prospect())
      ensures output.Length > 0 ==>
                match r
                case Err(e) => old(Prospect()) == Outlook([], Fault(e)) && ended == old(ended)
                case Ok(n) =>
                  && n <= output.Length && Heard(old(Prospect()), output[..n], Prospect())
                  && (n == 0 <==> ended) && (n == 0 ==> deferred.None?)
    {
      if output.Length == 0 {
        return Err(InvalidRequest);
      }
      if deferred.Some? {
        r := Err(deferred.value);
        deferred := None;
        return;
      }
      if ended {
        return Ok(0);
      }
      while true
        invariant Valid() && !ended && deferred.None?
        invariant Future(format, Reading()) == old(Future(format, Reading()))
        decreases Bytes(child.script)
      {
        var written, bad := DecodeBuffered(output);
        if bad {
          if written == 0 {
            return Err(InvalidOutput);
          }
          deferred := Some(InvalidOutput);
          return Ok(written);
        }
        if written != 0 {
          return Ok(written);
        }
        ghost var x := Reading();
        FutureRefill(format, x);
        var next := GetMore();
        if next.Done? {
          return next.result;
        }
      }
    }
  }

  /** Saving the carry and rewinding is the first thing a refill does, and does nothing done twice. */
  lemma RefillRewound<S>(f: Format<S>, x: Reader)
    requires Sound(f, x) && x.len - x.pos < f.width
    ensures var c := CarryOf(x);
            c < f.width && Refill(f, x.(pos := 0, len := c, carryLen := c)) == Refill(f, x)
  {
  }

  /** A refill behind the carry, case by case. */
  lemma RefillBehind<S>(f: Format<S>, x: Reader)
    requires Sound(f, x) && x.pos == 0 && x.len == x.carryLen && x.remaining != Some(0)
    ensures x.script == [] ==> Refill(f, x) == Over(AtEnd(f, x.carryLen, x.remaining, x.heard))
    ensures x.script != [] && x.script[0].Fail? ==> Refill(f, x) == Over(Fault(x.script[0].error))
    ensures x.script != [] && x.script[0].Data? ==>
              var n := Min(|x.script[0].bytes|, Within(INPUT_BYTES - x.carryLen, x.remaining));
              var y := Reader(Overwrite(x.buffer, x.carryLen, x.script[0].bytes[..n]), 0, x.carryLen + n, x.carryLen,
                              Rest(x.script, n), Less(x.remaining, n), x.heard);
              Refill(f, x) == Filled(y) && Sound(f, y)
  {
    if x.script != [] && x.script[0].Data? {
      FilledShrinks(f, x);
    }
  }

  /** A future seen one refill on. */
  lemma FutureRefill<S>(f: Format<S>, x: Reader)
    requires Sound(f, x) && x.len - x.pos < f.width
    ensures var next := Refill(f, x);
            if next.Over? then Future(f, x) == Outlook([], next.verdict)
            else
              && Sound(f, next.reader) && Future(f, x) == Future(f, next.reader)
              && Bytes(next.reader.script) < Bytes(x.script)
  {
    if Refill(f, x).Filled? {
      FilledShrinks(f, x);
    }
  }

  lemma TailAfter(script: seq<Event>, n: nat)
    requires script != [] && script[0].Data? && n <= |script[0].bytes|
    ensures TailEnding(Rest(script, n)) == TailEnding(script)
  {
    if n < |script[0].bytes| {
      SkipInTail(script[0].bytes[n..], script[1..]);
    }
  }

  /**
    Any sequence of reads with any nonempty buffers, until one reports an error or the end: what is
    heard is the reader's future, in order, all of it when the run stops, with its verdict.
   */
  method ReadRun<S(0)>(stream: PcmStream<S>, sizes: seq<nat>) returns (heard: seq<S>, stop: Option<Verdict>)
    requires stream.Valid() && !stream.ended && stream.deferred.None?
    requires forall i :: 0 <= i < |sizes| ==> sizes[i] > 0
    modifies stream, stream.child, stream.input, stream.carry
    ensures stream.Valid()
    ensures var whole := old(Future(stream.format, stream.Reading()));
            && heard <= whole.samples
            && (stop.Some? ==> heard == whole.samples && stop.value == whole.verdict)
            && (|sizes| > |whole.samples| ==> stop.Some?)
    ensures stop == Some(End) <==> stream.ended
  {
    heard, stop := [], None;
    ghost var whole := stream.Prospect();
    assert [] + whole.samples == whole.samples;
    for i := 0 to |sizes|
      invariant stream.Valid() && !stream.ended && stop.None?
      invariant |heard| >= i && Heard(whole, heard, stream.Prospect())
    {
      var output := new S[sizes[i]];
      ghost var left := stream.Prospect();
      var r := stream.Read(output);
      if r.Err? {
        stop := Some(Fault(r.error));
        return;
      }
      HeardMore(whole, heard, left, output[..r.value], stream.Prospect());
      if r.value == 0 {
        stop := Some(End);
        return;
      }
      heard := heard + output[..r.value];
    }
  }

  /**
    A whole stream, from opening, read with any buffers. When no sample is split between reads of
    the child, the reference is heard with its verdict. When one is, the samples that came whole
    before it are still heard right, and no clean end is reported.
   */
  method PlayAll<S(0)>(format: Format<S>, script: seq<Event>, remaining: Option<nat>, sizes: seq<nat>)
      returns (heard: seq<S>, stop: Option<Verdict>)
    requires Proper(format) && Live(script) && forall i :: 0 <= i < |sizes| ==> sizes[i] > 0
    ensures var whole := Judge(format, Gather(script, remaining), 0);
            Unsplit(format.width, script, remaining) ==>
              && heard <= whole.samples
              && (stop.Some? ==> heard == whole.samples && stop.value == whole.verdict)
              && (|sizes| > |whole.samples| ==> stop.Some?)
    ensures var whole := Judge(format, Gather(script, remaining), 0);
            var k := SamplesIn(Intact(format.width, script, remaining), format.width);
            && (forall i :: 0 <= i < |heard| && i < k ==> i < |whole.samples| && heard[i] == whole.samples[i])
            && (stop.Some? && |heard| < k ==> heard == whole.samples && stop.value == whole.verdict)
    ensures stop == Some(End) ==> Unsplit(format.width, script, remaining)
  {
    var child := new Child(script);
    var stream := new PcmStream(format, child, remaining);
    OpenedJudged(format, stream.Reading(), script, remaining);
    RightUntilSplit(format, stream.Reading());
    CleanEndExactly(format, stream.Reading());
    if Unsplit(format.width, script, remaining) {
      FutureIsReference(format, stream.Reading());
    }
    heard, stop := ReadRun(stream, sizes);
  }

  /** Two whole samples, the second split: reads hear the first one twice and then an error. */
  method SplitSampleHeard<S(0)>(format: Format<S>, sizes: seq<nat>) returns (heard: seq<S>, stop: Option<Verdict>)
    requires format.width == 2 && format.finite(format.decode([1, 0])) && format.finite(format.decode([2, 0]))
    requires |sizes| >= 3 && forall i :: 0 <= i < |sizes| ==> sizes[i] > 0
    ensures heard == [format.decode([1, 0]), format.decode([1, 0])] && stop == Some(Fault(InvalidOutput))
    ensures Judge(format, Gather(SPLIT, None), 0) == Outlook([format.decode([1, 0]), format.decode([2, 0])], End)
  {
    var child := new Child(SPLIT);
    var stream := new PcmStream(format, child, None);
    SplitReference(format);
    StaleSampleHeard(format, stream.Reading());
    heard, stop := ReadRun(stream, sizes);
  }
}
