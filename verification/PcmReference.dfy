/**
  What a child process's output means as sound, read all at once: the declared payload is
  gathered, cut into samples, and judged. The incremental reader is measured against this.
 */
module PcmReference {
  import opened Options
  import opened Quotients

  datatype Error =
    | InvalidRequest | Unavailable | Io | ProcessFailed | TimedOut | Cancelled | InvalidOutput | IncompatibleAdapter

  /** What successive reads of the pipe meet, until it ends successfully. */
  datatype Event = Data(bytes: seq<bv8>) | Fail(error: Error)

  /** Sample width, the value of one encoded sample after gain, and the error for a stream without samples. */
  datatype Format<!S> = Format(width: nat, decode: seq<bv8> -> S, finite: S -> bool, emptyError: Error)

  predicate Proper<S>(f: Format<S>) {
    f.width == 2 || f.width == 4
  }

  datatype Verdict = End | Fault(error: Error)

  /** The samples still to be heard and how the stream then ends. */
  datatype Outlook<S> = Outlook(samples: seq<S>, verdict: Verdict)

  datatype Ending = Complete | Short | Failed(error: Error)

  datatype Payload = Payload(bytes: seq<bv8>, ending: Ending)

  ghost predicate Live(script: seq<Event>) {
    forall i :: 0 <= i < |script| && script[i].Data? ==> script[i].bytes != []
  }

  function Min(a: nat, b: nat): nat {
    if a < b then a else b
  }

  /** How much of n bytes the declared length still covers. */
  function Within(n: nat, remaining: Option<nat>): nat {
    if remaining.None? then n else Min(n, remaining.value)
  }

  function Less(remaining: Option<nat>, n: nat): Option<nat>
    requires remaining.Some? ==> n <= remaining.value
  {
    if remaining.None? then None else Some(remaining.value - n)
  }

  /** After the declared payload only the child's own failure matters. */
  function TailEnding(script: seq<Event>): Ending {
    if script == [] then Complete
    else if script[0].Fail? then Failed(script[0].error)
    else TailEnding(script[1..])
  }

  /** The declared payload, and how the pipe fared while it was read. */
  function Gather(script: seq<Event>, remaining: Option<nat>): Payload {
    if remaining == Some(0) then Payload([], TailEnding(script))
    else if script == [] then Payload([], if remaining.None? then Complete else Short)
    else if script[0].Fail? then Payload([], Failed(script[0].error))
    else
      var b := script[0].bytes;
      var n := Within(|b|, remaining);
      var rest := Gather(script[1..], Less(remaining, n));
      Payload(b[..n] + rest.bytes, rest.ending)
  }

  function Samples<S>(f: Format<S>, bytes: seq<bv8>): seq<S>
    requires Proper(f)
    decreases |bytes|
  {
    if |bytes| < f.width then [] else [f.decode(bytes[..f.width])] + Samples(f, bytes[f.width..])
  }

  function FinitePrefix<S>(f: Format<S>, samples: seq<S>): seq<S> {
    if samples == [] || !f.finite(samples[0]) then [] else [samples[0]] + FinitePrefix(f, samples[1..])
  }

  /**
    A non-finite sample faults the stream after everything before it; otherwise the ending decides,
    and a last sample cut short is malformed output.
   */
  function Judge<S>(f: Format<S>, payload: Payload, heard: nat): Outlook<S>
    requires Proper(f)
  {
    var samples := Samples(f, payload.bytes);
    var sound := FinitePrefix(f, samples);
    Outlook(sound,
            if |sound| < |samples| then Fault(InvalidOutput)
            else
              match payload.ending
              case Failed(e) => Fault(e)
              case Short => Fault(InvalidOutput)
              case Complete =>
                if |payload.bytes| % f.width != 0 then Fault(InvalidOutput)
                else if heard + |samples| == 0 then Fault(f.emptyError)
                else End)
  }

  /** Every read that falls inside the declared payload delivers whole samples. */
  predicate Aligned(width: nat, script: seq<Event>, remaining: Option<nat>)
    requires width > 0
  {
    remaining == Some(0) || script == [] || script[0].Fail? ||
    (var n := Within(|script[0].bytes|, remaining);
     n % width == 0 && Aligned(width, script[1..], Less(remaining, n)))
  }

  /** No sample is split between two reads: every read is whole, or the last one inside the payload is cut short. */
  predicate Unsplit(width: nat, script: seq<Event>, remaining: Option<nat>)
    requires width > 0
  {
    remaining == Some(0) || script == [] || script[0].Fail? ||
    (var n := Within(|script[0].bytes|, remaining);
     if n % width == 0 then Unsplit(width, script[1..], Less(remaining, n))
     else Gather(script[1..], Less(remaining, n)).bytes == [])
  }

  /** The bytes of n that make up whole samples. */
  function WholePart(n: nat, width: nat): nat
    requires width > 0
  {
    n - n % width
  }

  /** How many bytes make up the whole samples delivered before the first split. */
  function Intact(width: nat, script: seq<Event>, remaining: Option<nat>): nat
    requires width > 0
  {
    if remaining == Some(0) || script == [] || script[0].Fail? then 0
    else
      var n := Within(|script[0].bytes|, remaining);
      if n % width == 0 then n + Intact(width, script[1..], Less(remaining, n)) else WholePart(n, width)
  }

  function Bytes(script: seq<Event>): nat {
    if script == [] then 0 else (if script[0].Data? then |script[0].bytes| else 0) + Bytes(script[1..])
  }

  // ---- One sample at a time ----

  lemma JudgeStep<S>(f: Format<S>, payload: Payload, heard: nat)
    requires Proper(f) && |payload.bytes| >= f.width
    ensures var value := f.decode(payload.bytes[..f.width]);
            var rest := Judge(f, Payload(payload.bytes[f.width..], payload.ending), heard + 1);
            Judge(f, payload, heard) ==
            if f.finite(value) then Outlook([value] + rest.samples, rest.verdict) else Outlook([], Fault(InvalidOutput))
  {
    var samples := Samples(f, payload.bytes);
    assert samples[1..] == Samples(f, payload.bytes[f.width..]);
    QuotientIs(f.width, f.width, 1, 0);
    ModuloDifference(|payload.bytes|, f.width, f.width);
  }

  // ---- One delivery at a time ----

  /** The script after n bytes of its first chunk were taken. */
  function Rest(script: seq<Event>, n: nat): seq<Event>
    requires script != [] && script[0].Data? && n <= |script[0].bytes|
  {
    if n == |script[0].bytes| then script[1..] else [Data(script[0].bytes[n..])] + script[1..]
  }

  lemma RestShrinks(script: seq<Event>, n: nat)
    requires script != [] && script[0].Data? && 0 < n <= |script[0].bytes| && Live(script)
    ensures Live(Rest(script, n)) && Bytes(Rest(script, n)) == Bytes(script) - n
  {
    if n < |script[0].bytes| {
      assert Rest(script, n)[1..] == script[1..];
    }
  }

  lemma GatherFirst(b: seq<bv8>, script: seq<Event>, remaining: Option<nat>)
    requires remaining != Some(0)
    ensures var n := Within(|b|, remaining);
            var later := Gather(script, Less(remaining, n));
            Gather([Data(b)] + script, remaining) == Payload(b[..n] + later.bytes, later.ending)
  {
    assert ([Data(b)] + script)[1..] == script;
  }

  lemma SkipInTail(b: seq<bv8>, script: seq<Event>)
    ensures TailEnding([Data(b)] + script) == TailEnding(script)
  {
    assert ([Data(b)] + script)[1..] == script;
  }

  lemma SplitPrefix(b: seq<bv8>, n: nat, m: nat, rest: seq<bv8>)
    requires n <= m <= |b|
    ensures b[..n] + (b[n..][..m - n] + rest) == b[..m] + rest
  {
  }

  lemma GatherInside(b: seq<bv8>, tail: seq<Event>, remaining: Option<nat>, n: nat)
    requires remaining != Some(0) && n < Within(|b|, remaining)
    ensures var later := Gather([Data(b[n..])] + tail, Less(remaining, n));
            Gather([Data(b)] + tail, remaining) == Payload(b[..n] + later.bytes, later.ending)
  {
    var whole := Within(|b|, remaining);
    GatherFirst(b, tail, remaining);
    GatherFirst(b[n..], tail, Less(remaining, n));
    SplitPrefix(b, n, whole, Gather(tail, Less(remaining, whole)).bytes);
  }

  lemma GatherToEnd(b: seq<bv8>, tail: seq<Event>, n: nat)
    requires 0 < n < |b|
    ensures var later := Gather([Data(b[n..])] + tail, Some(0));
            Gather([Data(b)] + tail, Some(n)) == Payload(b[..n] + later.bytes, later.ending)
  {
    GatherFirst(b, tail, Some(n));
    SkipInTail(b[n..], tail);
  }

  lemma GatherAfter(script: seq<Event>, remaining: Option<nat>, n: nat)
    requires script != [] && script[0].Data? && remaining != Some(0)
    requires 0 < n <= Within(|script[0].bytes|, remaining)
    ensures var later := Gather(Rest(script, n), Less(remaining, n));
            Gather(script, remaining) == Payload(script[0].bytes[..n] + later.bytes, later.ending)
  {
    var b, tail := script[0].bytes, script[1..];
    assert script == [Data(b)] + tail;
    if n == |b| {
      GatherFirst(b, tail, remaining);
    } else if n < Within(|b|, remaining) {
      GatherInside(b, tail, remaining, n);
    } else {
      GatherToEnd(b, tail, n);
    }
  }

  lemma {:induction false} TailNeverShort(script: seq<Event>)
    ensures !TailEnding(script).Short?
  {
    if script != [] && script[0].Data? {
      TailNeverShort(script[1..]);
    }
  }

  lemma ModuloDifference(a: nat, b: nat, w: nat)
    requires w > 0 && b <= a && b % w == 0
    ensures (a - b) % w == a % w && (a - b) / w == a / w - b / w
  {
    var p, q := a / w, b / w;
    assert a == p * w + a % w && b == q * w;
    assert (p - q) * w == p * w - q * w;
    QuotientIs(a - b, w, p - q, a % w);
  }

  /** How many whole samples n bytes hold. */
  function SamplesIn(n: nat, width: nat): nat
    requires width > 0
  {
    n / width
  }

  /** What is left of a chunk after n of its bytes were taken, as the next read finds it. */
  lemma RestAfter(script: seq<Event>, remaining: Option<nat>, n: nat)
    requires script != [] && script[0].Data? && remaining != Some(0) && n <= Within(|script[0].bytes|, remaining)
    ensures var rest, left, whole := Rest(script, n), Less(remaining, n), Within(|script[0].bytes|, remaining);
            if n == |script[0].bytes| then rest == script[1..]
            else
              && rest[0].Data? && rest[1..] == script[1..]
              && (n == whole ==> left == Some(0))
              && (n < whole ==> left != Some(0) && Within(|rest[0].bytes|, left) == whole - n)
              && (n < whole ==> Less(left, whole - n) == Less(remaining, whole))
  {
  }

  /** An aligned delivery leaves the rest exactly as aligned as before. */
  lemma AlignedAfter(width: nat, script: seq<Event>, remaining: Option<nat>, n: nat)
    requires (width == 2 || width == 4) && script != [] && script[0].Data? && remaining != Some(0)
    requires n <= Within(|script[0].bytes|, remaining) && n % width == 0
    ensures Aligned(width, Rest(script, n), Less(remaining, n)) == Aligned(width, script, remaining)
  {
    RestAfter(script, remaining, n);
    ModuloDifference(Within(|script[0].bytes|, remaining), n, width);
  }

  /** And exactly as unsplit. */
  lemma UnsplitAfter(width: nat, script: seq<Event>, remaining: Option<nat>, n: nat)
    requires (width == 2 || width == 4) && script != [] && script[0].Data? && remaining != Some(0)
    requires n <= Within(|script[0].bytes|, remaining) && n % width == 0
    ensures Unsplit(width, Rest(script, n), Less(remaining, n)) == Unsplit(width, script, remaining)
  {
    var whole := Within(|script[0].bytes|, remaining);
    RestAfter(script, remaining, n);
    ModuloDifference(whole, n, width);
    assert n == whole ==> whole % width == 0;
  }

  /** And takes its bytes off what is intact. */
  lemma IntactAfter(width: nat, script: seq<Event>, remaining: Option<nat>, n: nat)
    requires (width == 2 || width == 4) && script != [] && script[0].Data? && remaining != Some(0)
    requires n <= Within(|script[0].bytes|, remaining) && n % width == 0
    ensures n + Intact(width, Rest(script, n), Less(remaining, n)) == Intact(width, script, remaining)
  {
    var whole := Within(|script[0].bytes|, remaining);
    RestAfter(script, remaining, n);
    ModuloDifference(whole, n, width);
    assert n + WholePart(whole - n, width) == WholePart(whole, width);
    assert n == whole ==> whole % width == 0;
  }

  /** A read of a live script that falls short of whole samples takes all the payload has in that chunk. */
  lemma DeliveryTorn(width: nat, script: seq<Event>, remaining: Option<nat>, capacity: nat)
    requires (width == 2 || width == 4) && script != [] && script[0].Data? && remaining != Some(0)
            && capacity % width == 0
    requires Min(|script[0].bytes|, Within(capacity, remaining)) % width != 0
    ensures Min(|script[0].bytes|, Within(capacity, remaining)) == Within(|script[0].bytes|, remaining)
  {
  }

  /** Only an exhausted payload, an ended pipe or a failure delivers nothing. */
  lemma NothingAhead(script: seq<Event>, remaining: Option<nat>)
    requires Live(script) && Gather(script, remaining).bytes == []
    ensures remaining == Some(0) || script == [] || script[0].Fail?
  {
    if remaining != Some(0) && script != [] && script[0].Data? {
      assert Within(|script[0].bytes|, remaining) > 0;
    }
  }

  lemma {:induction false} AlignedIsUnsplit(width: nat, script: seq<Event>, remaining: Option<nat>)
    requires width > 0 && Aligned(width, script, remaining)
    ensures Unsplit(width, script, remaining)
  {
    if remaining != Some(0) && script != [] && script[0].Data? {
      AlignedIsUnsplit(width, script[1..], Less(remaining, Within(|script[0].bytes|, remaining)));
    }
  }

  // ---- Chunking does not matter ----

  function Chunks(pieces: seq<seq<bv8>>): seq<Event> {
    if pieces == [] then [] else [Data(pieces[0])] + Chunks(pieces[1..])
  }

  function Concat(pieces: seq<seq<bv8>>): seq<bv8> {
    if pieces == [] then [] else pieces[0] + Concat(pieces[1..])
  }

  /** However the child's output is cut, the payload is its declared prefix, short exactly when the output is. */
  lemma {:induction false} GatherIgnoresChunks(pieces: seq<seq<bv8>>, remaining: Option<nat>)
    ensures var all := Concat(pieces);
            Gather(Chunks(pieces), remaining) ==
            Payload(all[..Within(|all|, remaining)],
                    if remaining.Some? && |all| < remaining.value then Short else Complete)
    decreases |pieces|
  {
    if pieces == [] {
    } else if remaining == Some(0) {
      TailOfChunks(pieces);
    } else {
      var b, n := pieces[0], Within(|pieces[0]|, remaining);
      GatherFirst(b, Chunks(pieces[1..]), remaining);
      GatherIgnoresChunks(pieces[1..], Less(remaining, n));
      PrefixOfConcat(b, Concat(pieces[1..]), remaining);
    }
  }

  lemma PrefixOfConcat(a: seq<bv8>, b: seq<bv8>, remaining: Option<nat>)
    ensures var n := Within(|a|, remaining);
            a[..n] + b[..Within(|b|, Less(remaining, n))] == (a + b)[..Within(|a + b|, remaining)]
  {
  }

  lemma {:induction false} TailOfChunks(pieces: seq<seq<bv8>>)
    ensures TailEnding(Chunks(pieces)) == Complete
  {
    if pieces != [] {
      assert Chunks(pieces)[1..] == Chunks(pieces[1..]);
      TailOfChunks(pieces[1..]);
    }
  }
}
