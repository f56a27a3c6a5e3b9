/**
  The composition compiler as the program runs it: a depth-first search on an explicit stack that
  sizes every macro once, then an expansion on a stack of token iterators. Neither uses recursion.
 */
module CompositionCompiler {
  import opened Options
  import opened CompositionText
  import opened CompositionMeaning

  datatype Size = Size(segments: nat, bytes: nat)

  datatype Entry = Entry(name: string, finish: bool)

  /** The search: work stack, macros being visited, finished sizes, and the tokens of every opened macro. */
  datatype Search = Search(
    work: seq<Entry>,
    visiting: set<string>,
    sizes: map<string, Size>,
    tokens: map<string, seq<Token>>)

  // ---- Measuring ----

  /** What a list costs when each macro it names already has a size. */
  function Measured(lib: Library, tokens: seq<Token>, sizes: map<string, Size>): Size
    requires forall r :: r in Refs(tokens) ==> r in sizes
  {
    if tokens == [] then Size(0, 0)
    else
      var rest := Measured(lib, tokens[1..], sizes);
      match tokens[0]
      case Point(segment) => Size(1 + rest.segments, SegmentCost(lib, segment) + rest.bytes)
      case Reference(name) =>
        assert name in Refs(tokens);
        Size(sizes[name].segments + rest.segments, sizes[name].bytes + rest.bytes)
  }

  lemma {:induction false} RefsAppend(a: seq<Token>, b: seq<Token>)
    ensures Refs(a + b) == Refs(a) + Refs(b)
  {
    if a == [] {
      assert a + b == b;
    } else {
      assert (a + b)[1..] == a[1..] + b;
      RefsAppend(a[1..], b);
    }
  }

  lemma RefsSlice(tokens: seq<Token>, i: nat)
    requires i <= |tokens|
    ensures Refs(tokens) == Refs(tokens[..i]) + Refs(tokens[i..])
  {
    assert tokens == tokens[..i] + tokens[i..];
    RefsAppend(tokens[..i], tokens[i..]);
  }

  lemma {:induction false} MeasuredAppend(lib: Library, a: seq<Token>, b: seq<Token>, sizes: map<string, Size>)
    requires forall r :: r in Refs(a) || r in Refs(b) ==> r in sizes
    ensures Refs(a + b) == Refs(a) + Refs(b)
    ensures Measured(lib, a + b, sizes).segments == Measured(lib, a, sizes).segments + Measured(lib, b, sizes).segments
    ensures Measured(lib, a + b, sizes).bytes == Measured(lib, a, sizes).bytes + Measured(lib, b, sizes).bytes
  {
    RefsAppend(a, b);
    if a == [] {
      assert a + b == b;
    } else {
      assert (a + b)[1..] == a[1..] + b;
      MeasuredAppend(lib, a[1..], b, sizes);
    }
  }

  /**
    Add up a list from cached sizes with checked arithmetic. It fails exactly when the total
    passes the largest allocation; segment counts cannot overflow first.
   */
  method Measure(lib: Library, tokens: seq<Token>, sizes: map<string, Size>) returns (r: Result<Size>)
    requires lib.segmentBytes > 0
    requires forall r :: r in Refs(tokens) ==> r in sizes
    requires forall n :: n in sizes ==> sizes[n].segments <= sizes[n].bytes <= ISIZE_MAX
    ensures var size := Measured(lib, tokens, sizes);
            r == if size.bytes > ISIZE_MAX then Err(TooLarge) else Ok(size)
    ensures r.Ok? ==> r.value.segments <= r.value.bytes
  {
    var segments: nat, bytes: nat := 0, 0;
    for i := 0 to |tokens|
      invariant forall r :: r in Refs(tokens[..i]) ==> r in sizes
      invariant Size(segments, bytes) == Measured(lib, tokens[..i], sizes)
      invariant segments <= bytes <= ISIZE_MAX
    {
      RefsSlice(tokens, i);
      assert tokens[..i + 1] == tokens[..i] + [tokens[i]];
      assert tokens[i..] == [tokens[i]] + tokens[i + 1..];
      RefsAppend([tokens[i]], tokens[i + 1..]);
      MeasuredAppend(lib, tokens[..i], [tokens[i]], sizes);
      assert [tokens[i]][1..] == [];
      MeasuredGrows(lib, tokens, i + 1, sizes);
      var size: Size;
      match tokens[i] {
        case Reference(name) => size := sizes[name];
        case Point(segment) =>
          var text := (if segment.Literal? then ByteLength(segment.text) else 0) + OwnerBytes(segment.owner);
          if text > USIZE_MAX || lib.segmentBytes + text > USIZE_MAX {
            return Err(TooLarge);
          }
          size := Size(1, lib.segmentBytes + text);
      }
      if segments + size.segments > USIZE_MAX || bytes + size.bytes > USIZE_MAX || bytes + size.bytes > ISIZE_MAX {
        return Err(TooLarge);
      }
      segments, bytes := segments + size.segments, bytes + size.bytes;
    }
    assert tokens[..|tokens|] == tokens;
    return Ok(Size(segments, bytes));
  }

  lemma MeasuredGrows(lib: Library, tokens: seq<Token>, i: nat, sizes: map<string, Size>)
    requires i <= |tokens| && forall r :: r in Refs(tokens) ==> r in sizes
    ensures forall r :: r in Refs(tokens[..i]) ==> r in sizes
    ensures Measured(lib, tokens[..i], sizes).bytes <= Measured(lib, tokens, sizes).bytes
  {
    RefsSlice(tokens, i);
    MeasuredAppend(lib, tokens[..i], tokens[i..], sizes);
    assert tokens[..i] + tokens[i..] == tokens;
  }

  /** A cached size is that of the macro's flattening, found within the given depth. */
  predicate SizeExact(lib: Library, n: string, size: Size, depth: nat) {
    && Load(lib, n).Ok?
    && Flatten(lib, Load(lib, n).value, depth).Some?
    && size == SizeOf(lib, Flatten(lib, Load(lib, n).value, depth).value)
    && size.bytes <= ISIZE_MAX
  }

  ghost predicate SizesExact(lib: Library, sizes: map<string, Size>, depth: nat) {
    forall n :: n in sizes ==> SizeExact(lib, n, sizes[n], depth)
  }

  lemma SizeKept(lib: Library, n: string, size: Size, depth: nat)
    requires SizeExact(lib, n, size, depth)
    ensures SizeExact(lib, n, size, depth + 1)
  {
    FlattenMore(lib, Load(lib, n).value, depth, depth + 1);
  }

  function SizeOf(lib: Library, segments: seq<Segment>): Size {
    Size(|segments|, TotalCost(lib, segments))
  }

  lemma SizeAppend(lib: Library, a: seq<Segment>, b: seq<Segment>)
    ensures SizeOf(lib, a + b) == Size(|a| + |b|, TotalCost(lib, a) + TotalCost(lib, b))
  {
    TotalCostAppend(lib, a, b);
  }

  lemma TokenIsSize(lib: Library, t: Token, sizes: map<string, Size>, depth: nat)
    requires t.Reference? ==> t.name in sizes && SizeExact(lib, t.name, sizes[t.name], depth)
    ensures FlattenToken(lib, t, depth + 1).Some?
    ensures Measured(lib, [t], sizes) == SizeOf(lib, FlattenToken(lib, t, depth + 1).value)
  {
    assert [t][1..] == [] && Refs([t]) == (if t.Reference? then [t.name] else []) + [];
    assert Measured(lib, [t][1..], sizes) == Size(0, 0);
    if t.Point? {
      assert [t.segment][1..] == [] && [t.segment][0] == t.segment;
      assert TotalCost(lib, [t.segment]) == SegmentCost(lib, t.segment) + TotalCost(lib, []);
    }
  }

  /** Cached sizes are the sizes of the flattened segments. */
  lemma {:induction false} MeasuredIsSize(lib: Library, tokens: seq<Token>, sizes: map<string, Size>, depth: nat)
    requires SizesExact(lib, sizes, depth) && forall r :: r in Refs(tokens) ==> r in sizes
    ensures Flatten(lib, tokens, depth + 1).Some?
    ensures Measured(lib, tokens, sizes) == SizeOf(lib, Flatten(lib, tokens, depth + 1).value)
    decreases |tokens|
  {
    if tokens != [] {
      var t := tokens[0];
      if t.Reference? {
        assert t.name in Refs(tokens);
      }
      TokenIsSize(lib, t, sizes, depth);
      MeasuredIsSize(lib, tokens[1..], sizes, depth);
      SizeAppend(lib, FlattenToken(lib, t, depth + 1).value, Flatten(lib, tokens[1..], depth + 1).value);
      MeasuredFirst(lib, tokens, sizes);
    }
  }

  lemma MeasuredFirst(lib: Library, tokens: seq<Token>, sizes: map<string, Size>)
    requires tokens != [] && forall r :: r in Refs(tokens) ==> r in sizes
    ensures (forall r :: r in Refs([tokens[0]]) ==> r in sizes) && (forall r :: r in Refs(tokens[1..]) ==> r in sizes)
    ensures var first, rest := Measured(lib, [tokens[0]], sizes), Measured(lib, tokens[1..], sizes);
            Measured(lib, tokens, sizes) == Size(first.segments + rest.segments, first.bytes + rest.bytes)
  {
    assert [tokens[0]][1..] == [];
    assert Refs([tokens[0]]) == (if tokens[0].Reference? then [tokens[0].name] else []) + [];
  }

  // ---- The search invariant ----

  /** The macro whose references the top of this stack came from; none means the root. */
  function Opener(work: seq<Entry>): Option<string> {
    if work == [] then None
    else if work[|work| - 1].finish then Some(work[|work| - 1].name)
    else Opener(work[..|work| - 1])
  }

  predicate From(s: Search, root: seq<Token>, opener: Option<string>, name: string) {
    match opener
    case None => name in Refs(root)
    case Some(f) => f in s.tokens && name in Refs(s.tokens[f])
  }

  predicate Waiting(s: Search, from: nat, name: string) {
    exists j :: from <= j < |s.work| && s.work[j].name == name
  }

  /** Opened macros are exactly the finished and the visiting ones, and the visiting ones sit on the stack once. */
  ghost predicate Opened(lib: Library, root: seq<Token>, s: Search) {
    && s.tokens.Keys == s.sizes.Keys + s.visiting
    && s.sizes.Keys !! s.visiting
    && (forall n :: n in s.tokens ==> Load(lib, n) == Ok(s.tokens[n]) && Reachable(lib, root, n))
    && OnStack(s)
  }

  ghost predicate OnStack(s: Search) {
    && (forall n :: n in s.visiting ==> Entry(n, true) in s.work)
    && (forall k :: 0 <= k < |s.work| && s.work[k].finish ==> s.work[k].name in s.visiting)
    && (forall j, k :: 0 <= j < k < |s.work| && s.work[j].finish && s.work[k].finish ==>
          s.work[j].name != s.work[k].name)
  }

  /** An entry is a reference of the macro below it that opened it. */
  predicate Linked(root: seq<Token>, s: Search, k: nat) {
    k < |s.work| && From(s, root, Opener(s.work[..k]), s.work[k].name)
  }

  ghost predicate Chained(root: seq<Token>, s: Search) {
    forall k: nat :: k < |s.work| ==> Linked(root, s, k)
  }

  /** A reference of the macro finishing at this entry is sized or waits above it. */
  ghost predicate EntryCovered(s: Search, k: nat) {
    k < |s.work| && s.work[k].finish && s.work[k].name in s.tokens ==>
      forall r :: r in Refs(s.tokens[s.work[k].name]) ==> r in s.sizes || Waiting(s, k + 1, r)
  }

  ghost predicate MacroCovered(s: Search, n: string) {
    n in s.sizes && n in s.tokens ==> forall r :: r in Refs(s.tokens[n]) ==> r in s.sizes
  }

  ghost predicate RootCovered(root: seq<Token>, s: Search) {
    forall r :: r in Refs(root) ==> r in s.sizes || Waiting(s, 0, r)
  }

  /** Nothing is forgotten: a reference is finished or still waiting above its macro. */
  ghost predicate Covered(root: seq<Token>, s: Search) {
    && (forall n :: MacroCovered(s, n))
    && (forall k: nat :: EntryCovered(s, k))
    && RootCovered(root, s)
  }

  ghost predicate Inv(lib: Library, root: seq<Token>, s: Search) {
    Opened(lib, root, s) && Chained(root, s) && Covered(root, s) && SizesExact(lib, s.sizes, |s.sizes|)
  }

  function Pop(s: Search): Search
    requires s.work != []
  {
    s.(work := s.work[..|s.work| - 1])
  }

  function Top(s: Search): Entry
    requires s.work != []
  {
    s.work[|s.work| - 1]
  }

  /** Above a finish entry, the opener is that entry or a later one. */
  lemma {:induction false} OpenerLast(work: seq<Entry>, k: nat) returns (n: nat)
    requires k < |work| && work[k].finish
    ensures k <= n < |work| && work[n].finish && Opener(work) == Some(work[n].name)
  {
    if work[|work| - 1].finish {
      n := |work| - 1;
    } else {
      n := OpenerLast(work[..|work| - 1], k);
    }
  }

  /** Everything on the stack is reachable. */
  lemma StackReachable(lib: Library, root: seq<Token>, s: Search, k: nat)
    requires Opened(lib, root, s) && Linked(root, s, k)
    ensures Reachable(lib, root, s.work[k].name)
  {
    var name := s.work[k].name;
    match Opener(s.work[..k])
    case None => ReachableRoot(lib, root, name);
    case Some(f) => ReachableStep(lib, root, f, name);
  }

  /** From a visiting macro to anything opened above it runs a chain of references. */
  lemma {:induction false} StackPath(lib: Library, root: seq<Token>, s: Search, k: nat, j: nat, name: string)
      returns (path: seq<string>)
    requires Opened(lib, root, s) && Chained(root, s) && k < j <= |s.work| && s.work[k].finish
    requires From(s, root, Opener(s.work[..j]), name)
    ensures LeadsTo(lib, path, name) && path[0] == s.work[k].name && |path| > 1
    decreases j
  {
    var m := OpenerLast(s.work[..j], k);
    var f := s.work[m].name;
    if m == k {
      assert LeadsTo(lib, [f], f);
      ExtendPath(lib, [f], f, name);
      path := [f] + [name];
    } else {
      assert Linked(root, s, m);
      path := StackPath(lib, root, s, k, m, f);
      ExtendPath(lib, path, f, name);
      path := path + [name];
    }
  }

  // ---- Each way an iteration can go ----

  /** A reference to a macro being visited closes a cycle. */
  lemma RevisitIsCycle(lib: Library, root: seq<Token>, s: Search)
    requires Opened(lib, root, s) && Chained(root, s) && s.work != [] && !Top(s).finish && Top(s).name in s.visiting
    ensures Reachable(lib, root, Top(s).name) && Cyclic(lib, Top(s).name)
  {
    var j, name := |s.work| - 1, Top(s).name;
    assert Linked(root, s, j);
    StackReachable(lib, root, s, j);
    var k :| 0 <= k < |s.work| && s.work[k] == Entry(name, true);
    var path := StackPath(lib, root, s, k, j, name);
  }

  /** Taking the top off leaves the entries below as they were chained. */
  lemma ChainedBelow(root: seq<Token>, s: Search)
    requires s.work != [] && Chained(root, s)
    ensures Chained(root, Pop(s))
  {
    var s' := Pop(s);
    forall k: nat | k < |s'.work| ensures Linked(root, s', k) {
      assert Linked(root, s, k);
      assert s'.work[..k] == s.work[..k];
    }
  }

  lemma WaitingBelow(s: Search, from: nat, r: string)
    requires s.work != [] && Waiting(s, from, r) && r != Top(s).name
    ensures Waiting(Pop(s), from, r)
  {
    var j :| from <= j < |s.work| && s.work[j].name == r;
    assert Pop(s).work[j].name == r;
  }

  /** Once the top's macro is finished, nothing needs the top entry to wait for it. */
  lemma CoveredBelow(root: seq<Token>, s: Search)
    requires s.work != [] && Covered(root, s) && Top(s).name in s.sizes
    ensures Covered(root, Pop(s))
  {
    var s' := Pop(s);
    forall k: nat ensures EntryCovered(s', k) {
      assert EntryCovered(s, k);
      if k < |s'.work| && s'.work[k].finish && s'.work[k].name in s'.tokens {
        forall r | r in Refs(s'.tokens[s'.work[k].name]) ensures r in s'.sizes || Waiting(s', k + 1, r) {
          if r !in s.sizes {
            WaitingBelow(s, k + 1, r);
          }
        }
      }
    }
    forall r | r in Refs(root) ensures r in s'.sizes || Waiting(s', 0, r) {
      if r !in s.sizes {
        WaitingBelow(s, 0, r);
      }
    }
    forall n ensures MacroCovered(s', n) {
      assert MacroCovered(s, n);
    }
  }

  lemma OpenedBelow(lib: Library, root: seq<Token>, s: Search)
    requires s.work != [] && Opened(lib, root, s) && !Top(s).finish
    ensures Opened(lib, root, Pop(s))
  {
    var s' := Pop(s);
    forall n | n in s'.visiting ensures Entry(n, true) in s'.work {
      var k :| 0 <= k < |s.work| && s.work[k] == Entry(n, true);
      assert s'.work[k] == Entry(n, true);
    }
  }

  /** An already sized macro needs nothing more. */
  lemma SkipKeepsInv(lib: Library, root: seq<Token>, s: Search)
    requires Inv(lib, root, s) && s.work != [] && !Top(s).finish && Top(s).name in s.sizes
    ensures Inv(lib, root, Pop(s))
  {
    ChainedBelow(root, s);
    CoveredBelow(root, s);
    OpenedBelow(lib, root, s);
  }

  /** When a finish entry comes up, everything its macro refers to has been sized. */
  lemma FinishIsReady(lib: Library, root: seq<Token>, s: Search)
    requires Opened(lib, root, s) && Covered(root, s) && s.work != [] && Top(s).finish
    ensures var name := Top(s).name;
            && name in s.tokens && name in s.visiting && name !in s.sizes
            && Load(lib, name) == Ok(s.tokens[name]) && Reachable(lib, root, name)
            && forall r :: r in Refs(s.tokens[name]) ==> r in s.sizes
  {
    assert EntryCovered(s, |s.work| - 1);
    assert s.work[|s.work| - 1].name in s.visiting;
  }

  function Finished(s: Search, size: Size): Search
    requires s.work != []
  {
    Pop(s).(sizes := s.sizes[Top(s).name := size], visiting := s.visiting - {Top(s).name})
  }

  lemma SizesAfterFinish(lib: Library, root: seq<Token>, s: Search, size: Size)
    requires Opened(lib, root, s) && Covered(root, s) && SizesExact(lib, s.sizes, |s.sizes|) && s.work != []
            && Top(s).finish
    requires Top(s).name in s.tokens && (forall r :: r in Refs(s.tokens[Top(s).name]) ==> r in s.sizes)
    requires size == Measured(lib, s.tokens[Top(s).name], s.sizes) && size.bytes <= ISIZE_MAX
    ensures SizesExact(lib, Finished(s, size).sizes, |Finished(s, size).sizes|)
  {
    FinishIsReady(lib, root, s);
    var name, d := Top(s).name, |s.sizes|;
    var sizes := s.sizes[name := size];
    assert |sizes| == d + 1;
    MeasuredIsSize(lib, s.tokens[name], s.sizes, d);
    forall n | n in sizes && n != name
      ensures SizeExact(lib, n, sizes[n], d + 1)
    {
      SizeKept(lib, n, s.sizes[n], d);
    }
    assert SizeExact(lib, name, size, d + 1);
  }

  lemma OpenedAfterFinish(lib: Library, root: seq<Token>, s: Search, size: Size)
    requires Opened(lib, root, s) && s.work != [] && Top(s).finish
    ensures Opened(lib, root, Finished(s, size))
  {
    var s', name, j := Finished(s, size), Top(s).name, |s.work| - 1;
    assert name in s.visiting;
    forall n | n in s'.visiting ensures Entry(n, true) in s'.work {
      var k :| 0 <= k < |s.work| && s.work[k] == Entry(n, true);
      assert s'.work[k] == Entry(n, true);
    }
    forall k | 0 <= k < |s'.work| && s'.work[k].finish ensures s'.work[k].name in s'.visiting {
      assert s.work[k].finish && s.work[k].name != s.work[j].name;
    }
  }

  lemma CoveredAfterFinish(root: seq<Token>, s: Search, size: Size)
    requires Covered(root, s) && s.work != [] && Top(s).finish
    requires Top(s).name in s.tokens && (forall r :: r in Refs(s.tokens[Top(s).name]) ==> r in s.sizes)
    ensures Covered(root, Finished(s, size))
  {
    var s' := Finished(s, size);
    forall k: nat ensures EntryCovered(s', k) {
      assert EntryCovered(s, k);
      if k < |s'.work| && s'.work[k].finish && s'.work[k].name in s'.tokens {
        forall r | r in Refs(s'.tokens[s'.work[k].name]) ensures r in s'.sizes || Waiting(s', k + 1, r) {
          if r !in s'.sizes {
            WaitingBelow(s, k + 1, r);
            SameWait(Pop(s), s', k + 1, r);
          }
        }
      }
    }
    forall r | r in Refs(root) ensures r in s'.sizes || Waiting(s', 0, r) {
      if r !in s'.sizes {
        WaitingBelow(s, 0, r);
        SameWait(Pop(s), s', 0, r);
      }
    }
    forall n ensures MacroCovered(s', n) {
      assert MacroCovered(s, n);
    }
  }

  lemma SameWait(a: Search, b: Search, from: nat, r: string)
    requires a.work == b.work && Waiting(a, from, r)
    ensures Waiting(b, from, r)
  {
    var j :| from <= j < |a.work| && a.work[j].name == r;
    assert b.work[j].name == r;
  }

  lemma ChainedAfterFinish(root: seq<Token>, s: Search, size: Size)
    requires Chained(root, s) && s.work != []
    ensures Chained(root, Finished(s, size))
  {
    ChainedBelow(root, s);
    var s', p := Finished(s, size), Pop(s);
    forall k: nat | k < |s'.work| ensures Linked(root, s', k) {
      assert Linked(root, p, k);
    }
  }

  lemma FinishKeepsInv(lib: Library, root: seq<Token>, s: Search, size: Size)
    requires Inv(lib, root, s) && s.work != [] && Top(s).finish
    requires Top(s).name in s.tokens && (forall r :: r in Refs(s.tokens[Top(s).name]) ==> r in s.sizes)
    requires size == Measured(lib, s.tokens[Top(s).name], s.sizes) && size.bytes <= ISIZE_MAX
    ensures Inv(lib, root, Finished(s, size))
  {
    SizesAfterFinish(lib, root, s, size);
    OpenedAfterFinish(lib, root, s, size);
    ChainedAfterFinish(root, s, size);
    CoveredAfterFinish(root, s, size);
  }

  function Pending(names: seq<string>): seq<Entry> {
    seq(|names|, i requires 0 <= i < |names| => Entry(names[i], false))
  }

  /** Open the macro on top: its finish entry takes its place, its references go above. */
  function Opening(s: Search, body: seq<Token>): Search
    requires s.work != []
  {
    var name := Top(s).name;
    s.(work := Pop(s).work + [Entry(name, true)] + Pending(Refs(body)),
       visiting := s.visiting + {name},
       tokens := s.tokens[name := body])
  }

  lemma {:induction false} OpenerOfPending(base: seq<Entry>, names: seq<string>, i: nat)
    requires i <= |names|
    ensures Opener(base + Pending(names)[..i]) == Opener(base)
  {
    if i == 0 {
      assert base + Pending(names)[..0] == base;
    } else {
      var longer := base + Pending(names)[..i];
      assert longer[|longer| - 1] == Entry(names[i - 1], false);
      assert longer[..|longer| - 1] == base + Pending(names)[..i - 1];
      OpenerOfPending(base, names, i - 1);
    }
  }

  lemma OpeningEntries(s: Search, body: seq<Token>, k: nat)
    requires s.work != [] && k < |Opening(s, body).work|
    ensures var e, j := Opening(s, body).work[k], |s.work| - 1;
            if k < j then e == s.work[k] else if k == j then e == Entry(Top(s).name, true) else !e.finish
  {
  }

  lemma OnStackAfterOpening(s: Search, body: seq<Token>)
    requires OnStack(s) && s.work != [] && !Top(s).finish && Top(s).name !in s.visiting
    ensures OnStack(Opening(s, body))
  {
    var s', name, j := Opening(s, body), Top(s).name, |s.work| - 1;
    forall n | n in s'.visiting ensures Entry(n, true) in s'.work {
      if n == name {
        assert s'.work[j] == Entry(n, true);
      } else {
        var k :| 0 <= k < |s.work| && s.work[k] == Entry(n, true);
        assert s'.work[k] == Entry(n, true);
      }
    }
    forall k | 0 <= k < |s'.work| && s'.work[k].finish ensures s'.work[k].name in s'.visiting {
      OpeningEntries(s, body, k);
    }
    forall i, k | 0 <= i < k < |s'.work| && s'.work[i].finish && s'.work[k].finish
      ensures s'.work[i].name != s'.work[k].name
    {
      OpeningEntries(s, body, i);
      OpeningEntries(s, body, k);
    }
  }

  lemma OpenedAfterOpening(lib: Library, root: seq<Token>, s: Search, body: seq<Token>)
    requires Opened(lib, root, s) && s.work != [] && !Top(s).finish && Linked(root, s, |s.work| - 1)
    requires Top(s).name !in s.sizes && Top(s).name !in s.visiting && Load(lib, Top(s).name) == Ok(body)
    ensures Opened(lib, root, Opening(s, body))
  {
    StackReachable(lib, root, s, |s.work| - 1);
    OnStackAfterOpening(s, body);
  }

  lemma ChainedAfterOpening(root: seq<Token>, s: Search, body: seq<Token>)
    requires Chained(root, s) && s.work != [] && Top(s).name !in s.tokens
    ensures Chained(root, Opening(s, body))
  {
    var s', name, j := Opening(s, body), Top(s).name, |s.work| - 1;
    var base := Pop(s).work + [Entry(name, true)];
    forall k: nat | k < |s'.work| ensures Linked(root, s', k) {
      if k <= j {
        assert Linked(root, s, k);
        assert s'.work[..k] == s.work[..k] && s'.work[k].name == s.work[k].name;
      } else {
        assert s'.work[..k] == base + Pending(Refs(body))[..k - |base|];
        OpenerOfPending(base, Refs(body), k - |base|);
        assert s'.work[k].name == Refs(body)[k - |base|];
      }
    }
  }

  lemma WaitingAfterOpening(s: Search, body: seq<Token>, from: nat, r: string)
    requires s.work != [] && Waiting(s, from, r)
    ensures Waiting(Opening(s, body), from, r)
  {
    var i :| from <= i < |s.work| && s.work[i].name == r;
    assert Opening(s, body).work[i].name == r;
  }

  lemma EntriesAfterOpening(s: Search, body: seq<Token>, k: nat)
    requires s.work != [] && !Top(s).finish && Top(s).name !in s.tokens && EntryCovered(s, k)
    requires forall i :: 0 <= i < |s.work| && s.work[i].finish ==> s.work[i].name in s.tokens
    ensures EntryCovered(Opening(s, body), k)
  {
    var s', j := Opening(s, body), |s.work| - 1;
    if k < |s'.work| && s'.work[k].finish {
      OpeningEntries(s, body, k);
      forall r | r in Refs(s'.tokens[s'.work[k].name]) ensures r in s'.sizes || Waiting(s', k + 1, r) {
        if k == j {
          var i :| 0 <= i < |Refs(body)| && Refs(body)[i] == r;
          assert s'.work[j + 1 + i].name == r;
        } else if r !in s.sizes {
          WaitingAfterOpening(s, body, k + 1, r);
        }
      }
    }
  }

  lemma CoveredAfterOpening(root: seq<Token>, s: Search, body: seq<Token>)
    requires Covered(root, s) && s.work != [] && !Top(s).finish && Top(s).name !in s.tokens && Top(s).name !in s.sizes
    requires forall i :: 0 <= i < |s.work| && s.work[i].finish ==> s.work[i].name in s.tokens
    ensures Covered(root, Opening(s, body))
  {
    var s' := Opening(s, body);
    forall k: nat ensures EntryCovered(s', k) {
      assert EntryCovered(s, k);
      EntriesAfterOpening(s, body, k);
    }
    forall r | r in Refs(root) ensures r in s'.sizes || Waiting(s', 0, r) {
      if r !in s.sizes {
        WaitingAfterOpening(s, body, 0, r);
      }
    }
    forall n ensures MacroCovered(s', n) {
      assert MacroCovered(s, n);
    }
  }

  lemma OpeningIsNew(lib: Library, root: seq<Token>, s: Search, body: seq<Token>)
    requires Opened(lib, root, s) && s.work != [] && Top(s).name !in s.sizes && Top(s).name !in s.visiting
    requires Load(lib, Top(s).name) == Ok(body)
    ensures Top(s).name in lib.bodies && Top(s).name !in s.tokens
    ensures forall i :: 0 <= i < |s.work| && s.work[i].finish ==> s.work[i].name in s.tokens
  {
  }

  lemma OpenKeepsInv(lib: Library, root: seq<Token>, s: Search, body: seq<Token>)
    requires Inv(lib, root, s) && s.work != [] && !Top(s).finish
    requires Top(s).name !in s.sizes && Top(s).name !in s.visiting && Load(lib, Top(s).name) == Ok(body)
    ensures Inv(lib, root, Opening(s, body))
    ensures Top(s).name in lib.bodies && Top(s).name !in s.tokens
  {
    OpeningIsNew(lib, root, s, body);
    assert Opened(lib, root, Opening(s, body)) by {
      assert Linked(root, s, |s.work| - 1);
      OpenedAfterOpening(lib, root, s, body);
    }
    assert Chained(root, Opening(s, body)) by {
      ChainedAfterOpening(root, s, body);
    }
    assert Covered(root, Opening(s, body)) by {
      CoveredAfterOpening(root, s, body);
    }
    assert Opening(s, body).sizes == s.sizes;
  }

  lemma StartInv(lib: Library, root: seq<Token>)
    ensures Inv(lib, root, Search(Pending(Refs(root)), {}, map[], map[]))
  {
    var s := Search(Pending(Refs(root)), {}, map[], map[]);
    forall k: nat | k < |s.work| ensures Linked(root, s, k) {
      assert s.work[..k] == [] + Pending(Refs(root))[..k];
      OpenerOfPending([], Refs(root), k);
      assert s.work[k].name == Refs(root)[k];
    }
    forall r | r in Refs(root) ensures Waiting(s, 0, r) {
      var i :| 0 <= i < |Refs(root)| && Refs(root)[i] == r;
      assert s.work[i].name == r;
    }
  }

  // ---- Outcomes ----

  ghost predicate TooBig(lib: Library, tokens: seq<Token>) {
    exists segments :: Means(lib, tokens, segments) && TotalCost(lib, segments) > ISIZE_MAX
  }

  ghost predicate TooBigMacro(lib: Library, name: string) {
    Load(lib, name).Ok? && TooBig(lib, Load(lib, name).value)
  }

  /** A reachable macro justifies the error by itself. */
  predicate Blames(lib: Library, name: string, e: Error) {
    Load(lib, name) == Err(e)
  }

  /** Why compilation may report an error. */
  ghost predicate Explained(lib: Library, root: seq<Token>, e: Error) {
    || (e != Cycle && exists name :: Reachable(lib, root, name) && Blames(lib, name, e))
    || (e == Cycle && exists name :: Reachable(lib, root, name) && Cyclic(lib, name))
    || (e == TooLarge && TooBig(lib, root))
    || (e == TooLarge && exists name :: Reachable(lib, root, name) && TooBigMacro(lib, name))
  }

  /** The root has a meaning small enough to allocate. */
  ghost predicate Compiles(lib: Library, root: seq<Token>, segments: seq<Segment>) {
    Means(lib, root, segments) && TotalCost(lib, segments) <= ISIZE_MAX
  }

  /** An explained error leaves nothing that could have been compiled. */
  lemma ExplainedExcludes(lib: Library, root: seq<Token>, e: Error, segments: seq<Segment>)
    requires Explained(lib, root, e)
    ensures !Compiles(lib, root, segments)
  {
    if Compiles(lib, root, segments) {
      if name :| e != Cycle && Reachable(lib, root, name) && Blames(lib, name, e) {
        MeaningImpliesSound(lib, root, segments, name);
      } else if name :| e == Cycle && Reachable(lib, root, name) && Cyclic(lib, name) {
        MeaningImpliesSound(lib, root, segments, name);
      } else if TooBig(lib, root) {
        var big :| Means(lib, root, big) && TotalCost(lib, big) > ISIZE_MAX;
        MeaningUnique(lib, root, segments, big);
      } else {
        var name :| Reachable(lib, root, name) && TooBigMacro(lib, name);
        var big :| Means(lib, Load(lib, name).value, big) && TotalCost(lib, big) > ISIZE_MAX;
        var path :| LeadsTo(lib, path, name) && path[0] in Refs(root);
        var depth :| Flatten(lib, root, depth) == Some(segments);
        CostOfReachable(lib, root, depth, path, big);
      }
    }
  }

  lemma MeasuredTooBig(lib: Library, tokens: seq<Token>, sizes: map<string, Size>)
    requires SizesExact(lib, sizes, |sizes|) && forall r :: r in Refs(tokens) ==> r in sizes
    requires Measured(lib, tokens, sizes).bytes > ISIZE_MAX
    ensures TooBig(lib, tokens)
  {
    MeasuredIsSize(lib, tokens, sizes, |sizes|);
    assert Means(lib, tokens, Flatten(lib, tokens, |sizes| + 1).value);
  }

  lemma TooBigExplains(lib: Library, root: seq<Token>, name: string, tokens: seq<Token>)
    requires Reachable(lib, root, name) && Load(lib, name) == Ok(tokens) && TooBig(lib, tokens)
    ensures Explained(lib, root, TooLarge)
  {
    assert TooBigMacro(lib, name);
  }

  lemma BlameExplains(lib: Library, root: seq<Token>, s: Search, e: Error)
    requires Opened(lib, root, s) && Chained(root, s) && s.work != [] && Load(lib, Top(s).name) == Err(e)
    requires e != Cycle
    ensures Explained(lib, root, e)
  {
    assert Linked(root, s, |s.work| - 1);
    StackReachable(lib, root, s, |s.work| - 1);
    assert Blames(lib, Top(s).name, e);
  }

  lemma RevisitExplains(lib: Library, root: seq<Token>, s: Search)
    requires Opened(lib, root, s) && Chained(root, s) && s.work != [] && !Top(s).finish && Top(s).name in s.visiting
    ensures Explained(lib, root, Cycle)
  {
    RevisitIsCycle(lib, root, s);
  }

  /** Size the macro whose references are all sized. */
  method FinishMacro(lib: Library, ghost root: seq<Token>, s: Search) returns (r: Result<Search>)
    requires lib.segmentBytes > 0 && Inv(lib, root, s) && s.work != [] && Top(s).finish
    ensures r.Ok? ==> Inv(lib, root, r.value) && r.value.tokens == s.tokens && |r.value.work| < |s.work|
    ensures r.Err? ==> Explained(lib, root, r.error)
  {
    FinishIsReady(lib, root, s);
    SizesOrdered(lib, s.sizes, |s.sizes|);
    var size := Measure(lib, s.tokens[Top(s).name], s.sizes);
    if size.Err? {
      MeasuredTooBig(lib, s.tokens[Top(s).name], s.sizes);
      TooBigExplains(lib, root, Top(s).name, s.tokens[Top(s).name]);
      return Err(TooLarge);
    }
    FinishKeepsInv(lib, root, s, size.value);
    return Ok(Finished(s, size.value));
  }

  /** The usable tokens of a definition, parsed and validated. */
  method LoadDefinition(settings: Settings, owner: Option<string>, morseRequired: bool) returns (r: Result<seq<Token>>)
    ensures r == LoadSettings(settings, owner, morseRequired) && r != Err(Cycle)
  {
    ParseNeverCycles(settings.content, "", [], owner);
    r := ParseContent(settings.content, owner);
    if r.Ok? && !SourcesValid(r.value, settings, morseRequired) {
      return Err(MissingDefinition);
    }
  }

  method LoadMacro(definitions: map<string, Settings>, morseRequired: bool, ghost lib: Library, name: string)
      returns (r: Result<seq<Token>>)
    requires lib == LibraryOf(definitions, morseRequired, lib.segmentBytes)
    ensures r == Load(lib, name) && r != Err(Cycle)
    ensures r.Ok? ==> name in definitions
  {
    if name !in definitions {
      return Err(MissingDefinition);
    }
    r := LoadDefinition(definitions[name], Some(name), morseRequired);
  }

  lemma OpeningKeys(s: Search, body: seq<Token>)
    requires s.work != []
    ensures Opening(s, body).tokens.Keys == s.tokens.Keys + {Top(s).name}
  {
  }

  /** Loads the macro on top of the stack and pushes its finish mark and its references. */
  method OpenMacro(lib: Library, definitions: map<string, Settings>, morseRequired: bool, root: seq<Token>, s: Search)
    returns (r: Result<Search>)
    requires lib.segmentBytes > 0 && lib == LibraryOf(definitions, morseRequired, lib.segmentBytes)
    requires Inv(lib, root, s) && s.work != [] && !Top(s).finish && Top(s).name !in s.sizes
    ensures r.Ok? ==> Inv(lib, root, r.value) && r.value.tokens.Keys == s.tokens.Keys + {Top(s).name}
    ensures r.Ok? ==> Top(s).name in definitions.Keys - s.tokens.Keys
    ensures r.Err? ==> Explained(lib, root, r.error)
  {
    if Top(s).name in s.visiting {
      RevisitExplains(lib, root, s);
      return Err(Cycle);
    }
    var loaded := LoadMacro(definitions, morseRequired, lib, Top(s).name);
    if loaded.Err? {
      BlameExplains(lib, root, s, loaded.error);
      return Err(loaded.error);
    }
    OpenKeepsInv(lib, root, s, loaded.value);
    OpeningKeys(s, loaded.value);
    assert Top(s).name in definitions.Keys - s.tokens.Keys;
    return Ok(Opening(s, loaded.value));
  }

  /** One turn of the depth-first search. Each turn opens a macro for the first time or shortens the stack. */
  method SizeStep(lib: Library, definitions: map<string, Settings>, morseRequired: bool, root: seq<Token>, s: Search)
    returns (r: Result<Search>)
    requires lib.segmentBytes > 0 && lib == LibraryOf(definitions, morseRequired, lib.segmentBytes)
    requires Inv(lib, root, s) && s.work != []
    ensures r.Ok? ==> Inv(lib, root, r.value) && Advanced(definitions.Keys, s, r.value)
    ensures r.Err? ==> Explained(lib, root, r.error)
  {
    if Top(s).finish {
      r := FinishMacro(lib, root, s);
    } else if Top(s).name in s.sizes {
      SkipKeepsInv(lib, root, s);
      r := Ok(Pop(s));
    } else {
      r := OpenMacro(lib, definitions, morseRequired, root, s);
    }
  }

  ghost predicate Advanced(names: set<string>, s: Search, t: Search) {
    || (exists n :: n in names - s.tokens.Keys && t.tokens.Keys == s.tokens.Keys + {n})
    || (t.tokens.Keys == s.tokens.Keys && |t.work| < |s.work|)
  }

  /** Size every macro the root reaches, depth first. The search ends because each macro is opened once. */
  method SizeAll(lib: Library, definitions: map<string, Settings>, morseRequired: bool, root: seq<Token>)
      returns (r: Result<Search>)
    requires lib.segmentBytes > 0 && lib == LibraryOf(definitions, morseRequired, lib.segmentBytes)
    ensures r.Ok? ==> Inv(lib, root, r.value) && r.value.work == []
    ensures r.Ok? ==> forall name :: name in r.value.sizes <==> Reachable(lib, root, name)
    ensures r.Err? ==> Explained(lib, root, r.error)
    ensures r == Err(Cycle) ==> exists name :: Reachable(lib, root, name) && Cyclic(lib, name)
  {
    var s := Search(Pending(Refs(root)), {}, map[], map[]);
    StartInv(lib, root);
    while s.work != []
      invariant Inv(lib, root, s)
      decreases definitions.Keys - s.tokens.Keys, |s.work|
    {
      var next := SizeStep(lib, definitions, morseRequired, root, s);
      if next.Err? {
        return next;
      }
      s := next.value;
    }
    SizedIsReachable(lib, root, s);
    return Ok(s);
  }

  lemma SizesOrdered(lib: Library, sizes: map<string, Size>, depth: nat)
    requires SizesExact(lib, sizes, depth) && lib.segmentBytes > 0
    ensures forall n :: n in sizes ==> sizes[n].segments <= sizes[n].bytes <= ISIZE_MAX
  {
    forall n | n in sizes ensures sizes[n].segments <= sizes[n].bytes {
      CountBelowCost(lib, Flatten(lib, Load(lib, n).value, depth).value);
    }
  }

  lemma {:induction false} CountBelowCost(lib: Library, segments: seq<Segment>)
    requires lib.segmentBytes > 0
    ensures |segments| <= TotalCost(lib, segments)
  {
    if segments != [] {
      CountBelowCost(lib, segments[1..]);
    }
  }

  // ---- Expansion ----

  /** Iterator steps a list takes: one per segment, and for a reference the whole of its macro besides. */
  function Steps(lib: Library, tokens: seq<Token>, depth: nat): nat
    decreases depth, |tokens|
  {
    if tokens == [] then 0
    else
      var head :=
        match tokens[0]
        case Point(_) => 1
        case Reference(name) =>
          if depth == 0 || Load(lib, name).Err? then 0 else 2 + Steps(lib, Load(lib, name).value, depth - 1);
      head + Steps(lib, tokens[1..], depth)
  }

  lemma {:induction false} StepsMore(lib: Library, tokens: seq<Token>, depth: nat, more: nat)
    requires depth <= more && Flatten(lib, tokens, depth).Some?
    ensures Steps(lib, tokens, more) == Steps(lib, tokens, depth)
    decreases depth, |tokens|
  {
    if tokens != [] {
      if tokens[0].Reference? {
        StepsMore(lib, Load(lib, tokens[0].name).value, depth - 1, more - 1);
      }
      StepsMore(lib, tokens[1..], depth, more);
    }
  }

  /** What the frames of the iterator stack still have to produce, topmost first. */
  function Remaining(lib: Library, stack: seq<seq<Token>>, depth: nat): seq<Segment> {
    if stack == [] then []
    else
      var top := Flatten(lib, stack[|stack| - 1], depth);
      (if top.Some? then top.value else []) + Remaining(lib, stack[..|stack| - 1], depth)
  }

  function StackSteps(lib: Library, stack: seq<seq<Token>>, depth: nat): nat {
    if stack == [] then 0 else 1 + Steps(lib, stack[|stack| - 1], depth) + StackSteps(lib, stack[..|stack| - 1], depth)
  }

  predicate Expandable(lib: Library, tokens: map<string, seq<Token>>, frame: seq<Token>, depth: nat) {
    && Flatten(lib, frame, depth).Some?
    && (forall r :: r in Refs(frame) ==> r in tokens)
  }

  /** Opened macros are loaded and refer only to opened macros. */
  ghost predicate Closed(lib: Library, tokens: map<string, seq<Token>>) {
    forall n :: n in tokens ==> Load(lib, n) == Ok(tokens[n]) && forall r :: r in Refs(tokens[n]) ==> r in tokens
  }

  /** A segment at the front of the top frame is emitted. */
  lemma EmitStep(lib: Library, tokens: map<string, seq<Token>>, stack: seq<seq<Token>>, depth: nat)
    requires stack != [] && stack[|stack| - 1] != [] && stack[|stack| - 1][0].Point?
    requires Expandable(lib, tokens, stack[|stack| - 1], depth)
    ensures var n := |stack| - 1;
            var next := stack[n := stack[n][1..]];
            && Expandable(lib, tokens, stack[n][1..], depth)
            && Remaining(lib, stack, depth) == [stack[n][0].segment] + Remaining(lib, next, depth)
            && StackSteps(lib, next, depth) < StackSteps(lib, stack, depth)
  {
    var n := |stack| - 1;
    var next := stack[n := stack[n][1..]];
    assert next[..n] == stack[..n];
    var rest, below := Flatten(lib, stack[n][1..], depth).value, Remaining(lib, stack[..n], depth);
    assert FlattenToken(lib, stack[n][0], depth) == Some([stack[n][0].segment]);
    assert ([stack[n][0].segment] + rest) + below == [stack[n][0].segment] + (rest + below);
  }

  /** A reference at the front of the top frame pushes its macro's tokens. */
  lemma EnterStep(lib: Library, tokens: map<string, seq<Token>>, stack: seq<seq<Token>>, depth: nat)
    requires Closed(lib, tokens)
    requires stack != [] && stack[|stack| - 1] != [] && stack[|stack| - 1][0].Reference?
    requires Expandable(lib, tokens, stack[|stack| - 1], depth)
    ensures var n := |stack| - 1;
            var name := stack[n][0].name;
            && name in tokens
            && var next := stack[n := stack[n][1..]] + [tokens[name]];
               && Expandable(lib, tokens, stack[n][1..], depth)
               && Expandable(lib, tokens, tokens[name], depth)
               && Remaining(lib, stack, depth) == Remaining(lib, next, depth)
               && StackSteps(lib, next, depth) < StackSteps(lib, stack, depth)
  {
    var n := |stack| - 1;
    var name := stack[n][0].name;
    FlattenedRefs(lib, stack[n], depth, name);
    var body := tokens[name];
    FlattenMore(lib, body, depth - 1, depth);
    StepsMore(lib, body, depth - 1, depth);
    var rest := stack[n := stack[n][1..]];
    var next := rest + [body];
    assert next[..|next| - 1] == rest && rest[..n] == stack[..n];
    var inner, outer, below := Flatten(lib, body, depth).value, Flatten(lib, rest[n], depth).value,
        Remaining(lib, stack[..n], depth);
    assert (inner + outer) + below == inner + (outer + below);
  }

  ghost predicate Expanding(lib: Library, root: seq<Token>, tokens: map<string, seq<Token>>, depth: nat,
      stack: seq<seq<Token>>, segments: seq<Segment>) {
    && (forall i :: 0 <= i < |stack| ==> Expandable(lib, tokens, stack[i], depth))
    && Some(segments + Remaining(lib, stack, depth)) == Flatten(lib, root, depth)
  }

  lemma ExpandingStart(lib: Library, root: seq<Token>, tokens: map<string, seq<Token>>, depth: nat)
    requires Expandable(lib, tokens, root, depth)
    ensures Expanding(lib, root, tokens, depth, [root], [])
  {
    assert [root][..0] == [];
    assert Remaining(lib, [root], depth) == Flatten(lib, root, depth).value + [];
    assert [] + (Flatten(lib, root, depth).value + []) == Flatten(lib, root, depth).value;
  }

  lemma ExpandingPop(lib: Library, root: seq<Token>, tokens: map<string, seq<Token>>, depth: nat,
      stack: seq<seq<Token>>, segments: seq<Segment>)
    requires Expanding(lib, root, tokens, depth, stack, segments) && stack != [] && stack[|stack| - 1] == []
    ensures Expanding(lib, root, tokens, depth, stack[..|stack| - 1], segments)
  {
    var below := Remaining(lib, stack[..|stack| - 1], depth);
    assert [] + below == below;
  }

  lemma ExpandingEmit(lib: Library, root: seq<Token>, tokens: map<string, seq<Token>>, depth: nat,
      stack: seq<seq<Token>>, segments: seq<Segment>)
    requires Expanding(lib, root, tokens, depth, stack, segments)
    requires stack != [] && stack[|stack| - 1] != [] && stack[|stack| - 1][0].Point?
    ensures var n := |stack| - 1;
            var next := stack[n := stack[n][1..]];
            && Expanding(lib, root, tokens, depth, next, segments + [stack[n][0].segment])
            && StackSteps(lib, next, depth) < StackSteps(lib, stack, depth)
  {
    EmitStep(lib, tokens, stack, depth);
    var n := |stack| - 1;
    var next := stack[n := stack[n][1..]];
    assert segments + ([stack[n][0].segment] + Remaining(lib, next, depth)) == segments + [stack[n][0].segment]
        + Remaining(lib, next, depth);
  }

  lemma ExpandingEnter(lib: Library, root: seq<Token>, tokens: map<string, seq<Token>>, depth: nat,
      stack: seq<seq<Token>>, segments: seq<Segment>)
    requires Closed(lib, tokens) && Expanding(lib, root, tokens, depth, stack, segments)
    requires stack != [] && stack[|stack| - 1] != [] && stack[|stack| - 1][0].Reference?
    ensures var n := |stack| - 1;
            && stack[n][0].name in tokens
            && var next := stack[n := stack[n][1..]] + [tokens[stack[n][0].name]];
               && Expanding(lib, root, tokens, depth, next, segments)
               && StackSteps(lib, next, depth) < StackSteps(lib, stack, depth)
  {
    EnterStep(lib, tokens, stack, depth);
  }

  /** Expand on a stack of iterators; empty macros emit nothing, so progress is counted in iterator steps. */
  method Expand(ghost lib: Library, root: seq<Token>, tokens: map<string, seq<Token>>, ghost depth: nat)
      returns (segments: seq<Segment>)
    requires Closed(lib, tokens) && Expandable(lib, tokens, root, depth)
    ensures Some(segments) == Flatten(lib, root, depth)
  {
    segments := [];
    var stack := [root];
    ExpandingStart(lib, root, tokens, depth);
    while stack != []
      invariant Expanding(lib, root, tokens, depth, stack, segments)
      decreases StackSteps(lib, stack, depth)
    {
      var n := |stack| - 1;
      var top := stack[n];
      if top == [] {
        ExpandingPop(lib, root, tokens, depth, stack, segments);
        stack := stack[..n];
      } else {
        match top[0] {
          case Point(segment) =>
            ExpandingEmit(lib, root, tokens, depth, stack, segments);
            stack := stack[n := top[1..]];
            segments := segments + [segment];
          case Reference(name) =>
            ExpandingEnter(lib, root, tokens, depth, stack, segments);
            stack := stack[n := top[1..]] + [tokens[name]];
        }
      }
    }
    assert segments + [] == segments;
  }

  lemma NoneVisiting(s: Search)
    requires OnStack(s) && s.work == []
    ensures s.visiting == {}
  {
    forall n ensures n !in s.visiting {
      assert Entry(n, true) !in s.work;
    }
  }

  lemma RootDone(root: seq<Token>, s: Search)
    requires RootCovered(root, s) && s.work == []
    ensures forall r :: r in Refs(root) ==> r in s.sizes
  {
    forall r | r in Refs(root) ensures r in s.sizes {
      assert !Waiting(s, 0, r);
    }
  }

  lemma AllClosed(lib: Library, s: Search)
    requires s.tokens.Keys == s.sizes.Keys && forall n :: n in s.tokens ==> Load(lib, n) == Ok(s.tokens[n])
    requires forall n :: MacroCovered(s, n)
    ensures Closed(lib, s.tokens)
  {
    forall n | n in s.tokens ensures forall r :: r in Refs(s.tokens[n]) ==> r in s.tokens {
      assert MacroCovered(s, n);
    }
  }

  lemma SearchClosed(lib: Library, root: seq<Token>, s: Search)
    requires Opened(lib, root, s) && Covered(root, s) && s.work == []
    ensures Closed(lib, s.tokens) && s.sizes.Keys == s.tokens.Keys
    ensures forall r :: r in Refs(root) ==> r in s.sizes
  {
    NoneVisiting(s);
    RootDone(root, s);
    AllClosed(lib, s);
  }

  /** Following references from the root never leaves a finished search. */
  lemma {:induction false} PathSized(lib: Library, s: Search, path: seq<string>)
    requires IsPath(lib, path) && path[0] in s.tokens && Closed(lib, s.tokens)
    ensures path[|path| - 1] in s.tokens
    decreases |path|
  {
    if |path| > 1 {
      var rest := path[1..];
      assert Edge(lib, path[0], path[1]);
      forall i | 0 <= i < |rest| - 1 ensures Edge(lib, rest[i], rest[i + 1]) {
        assert Edge(lib, path[i + 1], path[i + 2]);
      }
      PathSized(lib, s, rest);
    }
  }

  /** A finished search has sized exactly the macros the root reaches. */
  lemma SizedIsReachable(lib: Library, root: seq<Token>, s: Search)
    requires Opened(lib, root, s) && Covered(root, s) && s.work == []
    ensures forall name :: name in s.sizes <==> Reachable(lib, root, name)
  {
    SearchClosed(lib, root, s);
    forall name | Reachable(lib, root, name) ensures name in s.sizes {
      var path :| LeadsTo(lib, path, name) && path[0] in Refs(root);
      PathSized(lib, s, path);
    }
  }

  /** The finished search fixes the root's meaning and size. */
  lemma SearchMeaning(lib: Library, root: seq<Token>, sizes: map<string, Size>, tokens: map<string, seq<Token>>)
    requires lib.segmentBytes > 0 && SizesExact(lib, sizes, |sizes|) && sizes.Keys == tokens.Keys
    requires forall r :: r in Refs(root) ==> r in sizes
    ensures forall n :: n in sizes ==> sizes[n].segments <= sizes[n].bytes <= ISIZE_MAX
    ensures Expandable(lib, tokens, root, |sizes| + 1)
    ensures Measured(lib, root, sizes) == SizeOf(lib, Flatten(lib, root, |sizes| + 1).value)
  {
    SizesOrdered(lib, sizes, |sizes|);
    MeasuredIsSize(lib, root, sizes, |sizes|);
  }

  /**
    Compile the invoking settings. Success is exactly having a meaning that fits, and yields it;
    an error from the invoking text is that text's own, and any other is explained by a macro it
    reaches, by a cycle among them, or by a size past the bound.
   */
  method Compile(invoking: Settings, definitions: map<string, Settings>, morseRequired: bool, segmentBytes: nat)
      returns (r: Result<seq<Segment>>)
    requires segmentBytes > 0
    ensures var lib := LibraryOf(definitions, morseRequired, segmentBytes);
            match LoadSettings(invoking, None, morseRequired)
            case Err(e) => r == Err(e)
            case Ok(root) =>
              && (r.Ok? ==> Compiles(lib, root, r.value))
              && (r.Err? ==> Explained(lib, root, r.error) && forall segments :: !Compiles(lib, root, segments))
    ensures r == Err(Cycle) ==>
              var lib := LibraryOf(definitions, morseRequired, segmentBytes);
              && LoadSettings(invoking, None, morseRequired).Ok?
              && exists name :: Reachable(lib, LoadSettings(invoking, None, morseRequired).value, name)
                  && Cyclic(lib, name)
  {
    var root := LoadDefinition(invoking, None, morseRequired);
    if root.Err? {
      return Err(root.error);
    }
    ghost var lib := LibraryOf(definitions, morseRequired, segmentBytes);
    r := CompileRoot(root.value, definitions, morseRequired, segmentBytes);
    if r.Err? {
      forall segments ensures !Compiles(lib, root.value, segments) {
        ExplainedExcludes(lib, root.value, r.error, segments);
      }
    }
  }

  method CompileRoot(root: seq<Token>, definitions: map<string, Settings>, morseRequired: bool, segmentBytes: nat)
      returns (r: Result<seq<Segment>>)
    requires segmentBytes > 0
    ensures var lib := LibraryOf(definitions, morseRequired, segmentBytes);
            && (r.Ok? ==> Compiles(lib, root, r.value))
            && (r.Err? ==> Explained(lib, root, r.error))
  {
    var lib := LibraryOf(definitions, morseRequired, segmentBytes);
    var search := SizeAll(lib, definitions, morseRequired, root);
    if search.Err? {
      return Err(search.error);
    }
    SearchClosed(lib, root, search.value);
    SearchMeaning(lib, root, search.value.sizes, search.value.tokens);
    var size := Measure(lib, root, search.value.sizes);
    ghost var depth := |search.value.sizes| + 1;
    assert Means(lib, root, Flatten(lib, root, depth).value);
    if size.Err? {
      assert TooBig(lib, root);
      return Err(TooLarge);
    }
    var segments := Expand(lib, root, search.value.tokens, depth);
    return Ok(segments);
  }

  /**
    What success says about the definitions: all reached macros are usable, none is cyclic, and every
    segment's owner can be looked up.
   */
  lemma CompiledIsSound(invoking: Settings, definitions: map<string, Settings>, morseRequired: bool, segmentBytes: nat,
      segments: seq<Segment>)
    requires LoadSettings(invoking, None, morseRequired).Ok?
    requires Compiles(LibraryOf(definitions, morseRequired, segmentBytes),
            LoadSettings(invoking, None, morseRequired).value, segments)
    ensures var lib, root := LibraryOf(definitions, morseRequired, segmentBytes),
            LoadSettings(invoking, None, morseRequired).value;
            forall name :: Reachable(lib, root, name) ==>
              name in definitions && Load(lib, name).Ok? && !Cyclic(lib, name)
    ensures forall i :: 0 <= i < |segments| ==> OwnerDefined(definitions, segments[i])
  {
    var lib, root := LibraryOf(definitions, morseRequired, segmentBytes),
        LoadSettings(invoking, None, morseRequired).value;
    forall name | Reachable(lib, root, name) ensures name in definitions && Load(lib, name).Ok? && !Cyclic(lib, name) {
      MeaningImpliesSound(lib, root, segments, name);
    }
    LoadedOwners(invoking, None, morseRequired, definitions);
    var depth :| Flatten(lib, root, depth) == Some(segments);
    FlattenedOwners(definitions, morseRequired, segmentBytes, root, depth);
  }
}
