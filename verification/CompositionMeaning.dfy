/**
  What a composition means: the flattening of its macro references, the reference graph it
  depends on, and the size of the result.
 */
module CompositionMeaning {
  import opened Options
  import opened CompositionText

  const ISIZE_MAX: nat := 0x7FFF_FFFF_FFFF_FFFF
  const USIZE_MAX: nat := 0xFFFF_FFFF_FFFF_FFFF

  /**
    The effective settings a composition reads. `tone` and `morse` hold, when configured, whether
    the audio renderer accepts them (for Morse also that the text is not blank).
   */
  datatype Settings = Settings(
    content: string,
    messageId: bool,
    tone: Option<bool>,
    morse: Option<bool>,
    file: bool,
    speech: bool)

  /** What loading each named definition gives, and the size of one segment record. */
  datatype Library = Library(bodies: map<string, Result<seq<Token>>>, segmentBytes: nat)

  predicate SourceValid(s: Segment, settings: Settings, morseRequired: bool) {
    match s
    case Literal(_, _) => true
    case Message(_) => settings.messageId
    case Tone(_) => settings.tone.Some? && settings.tone.value
    case Media(_) =>
      if settings.morse.Some? then settings.morse.value
      else !morseRequired && (settings.file || settings.speech || settings.tone.Some?)
  }

  predicate SourcesValid(tokens: seq<Token>, settings: Settings, morseRequired: bool) {
    forall i :: 0 <= i < |tokens| && tokens[i].Point? ==> SourceValid(tokens[i].segment, settings, morseRequired)
  }

  function LoadSettings(settings: Settings, owner: Option<string>, morseRequired: bool): Result<seq<Token>> {
    var parsed := Parse(settings.content, owner);
    if parsed.Ok? && !SourcesValid(parsed.value, settings, morseRequired) then Err(MissingDefinition) else parsed
  }

  /** The library of a set of named definitions. */
  function LibraryOf(definitions: map<string, Settings>, morseRequired: bool, segmentBytes: nat): Library {
    Library(map name | name in definitions :: LoadSettings(definitions[name], Some(name), morseRequired), segmentBytes)
  }

  /** The usable tokens of a named macro. */
  function Load(lib: Library, name: string): Result<seq<Token>> {
    if name in lib.bodies then lib.bodies[name] else Err(MissingDefinition)
  }

  function Refs(tokens: seq<Token>): seq<string> {
    if tokens == [] then []
    else (if tokens[0].Reference? then [tokens[0].name] else []) + Refs(tokens[1..])
  }

  // ---- Flattening ----

  /** The segments of a token list with references expanded, if that ends within the given nesting depth. */
  function Flatten(lib: Library, tokens: seq<Token>, depth: nat): Option<seq<Segment>>
    decreases depth, |tokens|
  {
    if tokens == [] then Some([])
    else
      var head := FlattenToken(lib, tokens[0], depth);
      var tail := Flatten(lib, tokens[1..], depth);
      if head.Some? && tail.Some? then Some(head.value + tail.value) else None
  }

  function FlattenToken(lib: Library, t: Token, depth: nat): Option<seq<Segment>>
    decreases depth, 0
  {
    match t
    case Point(segment) => Some([segment])
    case Reference(name) =>
      if depth == 0 || Load(lib, name).Err? then None else Flatten(lib, Load(lib, name).value, depth - 1)
  }

  /** Being flattened at some depth: the recursive meaning of a token list. */
  ghost predicate Means(lib: Library, tokens: seq<Token>, segments: seq<Segment>) {
    exists depth: nat :: Flatten(lib, tokens, depth) == Some(segments)
  }

  /** More depth changes nothing once there is enough. */
  lemma {:induction false} FlattenMore(lib: Library, tokens: seq<Token>, depth: nat, more: nat)
    requires depth <= more && Flatten(lib, tokens, depth).Some?
    ensures Flatten(lib, tokens, more) == Flatten(lib, tokens, depth)
    decreases depth, |tokens|
  {
    if tokens != [] {
      if tokens[0].Reference? {
        FlattenMore(lib, Load(lib, tokens[0].name).value, depth - 1, more - 1);
      }
      FlattenMore(lib, tokens[1..], depth, more);
    }
  }

  /** A token list has at most one meaning. */
  lemma MeaningUnique(lib: Library, tokens: seq<Token>, a: seq<Segment>, b: seq<Segment>)
    requires Means(lib, tokens, a) && Means(lib, tokens, b)
    ensures a == b
  {
    var d :| Flatten(lib, tokens, d) == Some(a);
    var e :| Flatten(lib, tokens, e) == Some(b);
    if d <= e {
      FlattenMore(lib, tokens, d, e);
    } else {
      FlattenMore(lib, tokens, e, d);
    }
  }

  /** A list that flattens names only macros that flatten one level down. */
  lemma {:induction false} FlattenedRefs(lib: Library, tokens: seq<Token>, depth: nat, r: string)
    requires Flatten(lib, tokens, depth).Some? && r in Refs(tokens)
    ensures depth > 0 && Load(lib, r).Ok? && Flatten(lib, Load(lib, r).value, depth - 1).Some?
    decreases |tokens|
  {
    if tokens[0] != Reference(r) {
      FlattenedRefs(lib, tokens[1..], depth, r);
    }
  }

  // ---- The reference graph ----

  predicate Edge(lib: Library, a: string, b: string) {
    Load(lib, a).Ok? && b in Refs(Load(lib, a).value)
  }

  predicate IsPath(lib: Library, path: seq<string>) {
    && path != []
    && forall i :: 0 <= i < |path| - 1 ==> Edge(lib, path[i], path[i + 1])
  }

  predicate LeadsTo(lib: Library, path: seq<string>, target: string) {
    IsPath(lib, path) && path[|path| - 1] == target
  }

  /** Some chain of references from the root tokens ends at the name. */
  ghost predicate Reachable(lib: Library, root: seq<Token>, name: string) {
    exists path :: LeadsTo(lib, path, name) && path[0] in Refs(root)
  }

  /** The name refers to itself through one or more references. */
  ghost predicate Cyclic(lib: Library, name: string) {
    exists path :: LeadsTo(lib, path, name) && path[0] == name && |path| > 1
  }

  lemma ExtendPath(lib: Library, path: seq<string>, a: string, b: string)
    requires LeadsTo(lib, path, a) && Edge(lib, a, b)
    ensures LeadsTo(lib, path + [b], b) && (path + [b])[0] == path[0]
  {
    var longer := path + [b];
    forall i | 0 <= i < |longer| - 1 ensures Edge(lib, longer[i], longer[i + 1]) {
      if i < |path| - 1 {
        assert Edge(lib, path[i], path[i + 1]);
      }
    }
  }

  lemma ReachableStep(lib: Library, root: seq<Token>, a: string, b: string)
    requires Reachable(lib, root, a) && Edge(lib, a, b)
    ensures Reachable(lib, root, b)
  {
    var path :| LeadsTo(lib, path, a) && path[0] in Refs(root);
    ExtendPath(lib, path, a, b);
  }

  lemma ReachableRoot(lib: Library, root: seq<Token>, name: string)
    requires name in Refs(root)
    ensures Reachable(lib, root, name)
  {
    assert LeadsTo(lib, [name], name);
  }

  /** Along any chain of references the remaining depth shrinks: chains are no longer than the depth. */
  lemma {:induction false} PathsAreShort(lib: Library, tokens: seq<Token>, depth: nat, path: seq<string>)
    requires Flatten(lib, tokens, depth).Some? && IsPath(lib, path) && path[0] in Refs(tokens)
    ensures |path| <= depth
    ensures Load(lib, path[|path| - 1]).Ok?
    ensures Flatten(lib, Load(lib, path[|path| - 1]).value, depth - |path|).Some?
    decreases |path|
  {
    FlattenedRefs(lib, tokens, depth, path[0]);
    if |path| > 1 {
      assert Edge(lib, path[0], path[1]);
      forall i | 0 <= i < |path[1..]| - 1 ensures Edge(lib, path[1..][i], path[1..][i + 1]) {
        assert Edge(lib, path[i + 1], path[i + 2]);
      }
      PathsAreShort(lib, Load(lib, path[0]).value, depth - 1, path[1..]);
    }
  }

  /** Walking a cycle again gives a longer chain. */
  lemma Around(lib: Library, chain: seq<string>, cycle: seq<string>, name: string)
    requires LeadsTo(lib, chain, name) && LeadsTo(lib, cycle, name) && cycle[0] == name && |cycle| > 1
    ensures LeadsTo(lib, chain + cycle[1..], name) && |chain + cycle[1..]| > |chain|
    ensures (chain + cycle[1..])[0] == chain[0]
  {
    var longer := chain + cycle[1..];
    forall i | 0 <= i < |longer| - 1 ensures Edge(lib, longer[i], longer[i + 1]) {
      if i < |chain| - 1 {
        assert Edge(lib, chain[i], chain[i + 1]);
      } else {
        var k := i - (|chain| - 1);
        assert Edge(lib, cycle[k], cycle[k + 1]);
      }
    }
  }

  lemma {:induction false} LongChain(lib: Library, chain: seq<string>, cycle: seq<string>, name: string, length: nat)
      returns (long: seq<string>)
    requires LeadsTo(lib, chain, name) && LeadsTo(lib, cycle, name) && cycle[0] == name && |cycle| > 1
    ensures LeadsTo(lib, long, name) && |long| > length && long[0] == chain[0]
    decreases length - |chain|
  {
    if |chain| > length {
      return chain;
    }
    Around(lib, chain, cycle, name);
    long := LongChain(lib, chain + cycle[1..], cycle, name, length);
  }

  /** A token list with a meaning reaches only loadable macros, and none of them reaches itself. */
  lemma MeaningImpliesSound(lib: Library, root: seq<Token>, segments: seq<Segment>, name: string)
    requires Means(lib, root, segments) && Reachable(lib, root, name)
    ensures Load(lib, name).Ok? && !Cyclic(lib, name)
  {
    var depth :| Flatten(lib, root, depth) == Some(segments);
    var path :| LeadsTo(lib, path, name) && path[0] in Refs(root);
    PathsAreShort(lib, root, depth, path);
    if Cyclic(lib, name) {
      var cycle :| LeadsTo(lib, cycle, name) && cycle[0] == name && |cycle| > 1;
      var long := LongChain(lib, path, cycle, name, depth);
      PathsAreShort(lib, root, depth, long);
    }
  }

  // ---- Sizes ----

  function OwnerBytes(owner: Option<string>): nat {
    if owner.Some? then ByteLength(owner.value) else 0
  }

  function SegmentCost(lib: Library, s: Segment): nat {
    lib.segmentBytes + (if s.Literal? then ByteLength(s.text) else 0) + OwnerBytes(s.owner)
  }

  /** Bytes the expanded segments take, records and text together. */
  function TotalCost(lib: Library, segments: seq<Segment>): nat {
    if segments == [] then 0 else SegmentCost(lib, segments[0]) + TotalCost(lib, segments[1..])
  }

  lemma {:induction false} TotalCostAppend(lib: Library, a: seq<Segment>, b: seq<Segment>)
    ensures TotalCost(lib, a + b) == TotalCost(lib, a) + TotalCost(lib, b)
  {
    if a == [] {
      assert a + b == b;
    } else {
      assert (a + b)[1..] == a[1..] + b;
      TotalCostAppend(lib, a[1..], b);
    }
  }

  /** A list is at least as large as each macro it reaches in one step. */
  lemma {:induction false} CostOfRef(lib: Library, tokens: seq<Token>, depth: nat, r: string)
    requires Flatten(lib, tokens, depth).Some? && r in Refs(tokens)
    ensures depth > 0 && Load(lib, r).Ok? && Flatten(lib, Load(lib, r).value, depth - 1).Some?
    ensures TotalCost(lib, Flatten(lib, Load(lib, r).value, depth - 1).value)
            <= TotalCost(lib, Flatten(lib, tokens, depth).value)
    decreases |tokens|
  {
    var head, tail := FlattenToken(lib, tokens[0], depth).value, Flatten(lib, tokens[1..], depth).value;
    TotalCostAppend(lib, head, tail);
    if tokens[0] != Reference(r) {
      CostOfRef(lib, tokens[1..], depth, r);
    }
  }

  /** And as each macro it reaches at all. */
  lemma {:induction false} CostOfReachable(lib: Library, tokens: seq<Token>, depth: nat, path: seq<string>,
      segments: seq<Segment>)
    requires Flatten(lib, tokens, depth).Some? && IsPath(lib, path) && path[0] in Refs(tokens)
    requires Load(lib, path[|path| - 1]).Ok? && Means(lib, Load(lib, path[|path| - 1]).value, segments)
    ensures TotalCost(lib, segments) <= TotalCost(lib, Flatten(lib, tokens, depth).value)
    decreases |path|
  {
    CostOfRef(lib, tokens, depth, path[0]);
    var body := Load(lib, path[0]).value;
    if |path| == 1 {
      MeaningUnique(lib, body, segments, Flatten(lib, body, depth - 1).value);
    } else {
      assert Edge(lib, path[0], path[1]);
      forall i | 0 <= i < |path[1..]| - 1 ensures Edge(lib, path[1..][i], path[1..][i + 1]) {
        assert Edge(lib, path[i + 1], path[i + 2]);
      }
      CostOfReachable(lib, body, depth - 1, path[1..], segments);
    }
  }

  // ---- Owners ----

  lemma {:induction false} ParsedOwners(s: string, literal: string, done: seq<Token>, owner: Option<string>, k: nat)
    requires ParseFrom(s, literal, done, owner).Ok?
    requires forall i :: 0 <= i < |done| && done[i].Point? ==> done[i].segment.owner == owner
    requires k < |ParseFrom(s, literal, done, owner).value| && ParseFrom(s, literal, done, owner).value[k].Point?
    ensures ParseFrom(s, literal, done, owner).value[k].segment.owner == owner
    decreases |s|
  {
    if s == [] {
    } else if Escaped(s) {
      ParsedOwners(s[2..], literal + [s[0]], done, owner, k);
    } else if s[0] == '{' {
      var flushed := Flush(done, literal, owner).value;
      var (name, rest) := ScanName(s[1..]).value;
      ScanNameShrinks(s[1..]);
      ParsedOwners(rest, "", flushed + [TokenOf(name, owner).value], owner, k);
    } else {
      ParsedOwners(s[1..], literal + [s[0]], done, owner, k);
    }
  }

  predicate OwnerDefined(definitions: map<string, Settings>, s: Segment) {
    s.owner.Some? ==> s.owner.value in definitions
  }

  predicate PointsOwned(definitions: map<string, Settings>, tokens: seq<Token>) {
    forall i :: 0 <= i < |tokens| && tokens[i].Point? ==> OwnerDefined(definitions, tokens[i].segment)
  }

  lemma LoadedOwners(settings: Settings, owner: Option<string>, morseRequired: bool, definitions: map<string, Settings>)
    requires LoadSettings(settings, owner, morseRequired).Ok? && (owner.Some? ==> owner.value in definitions)
    ensures PointsOwned(definitions, LoadSettings(settings, owner, morseRequired).value)
  {
    var tokens := LoadSettings(settings, owner, morseRequired).value;
    forall i | 0 <= i < |tokens| && tokens[i].Point? ensures OwnerDefined(definitions, tokens[i].segment) {
      ParsedOwners(settings.content, "", [], owner, i);
    }
  }

  /** Every expanded segment is owned by the invoking settings or by a defined macro. */
  lemma {:induction false} FlattenedOwners(definitions: map<string, Settings>, morseRequired: bool, segmentBytes: nat,
      tokens: seq<Token>, depth: nat)
    requires Flatten(LibraryOf(definitions, morseRequired, segmentBytes), tokens, depth).Some?
            && PointsOwned(definitions, tokens)
    ensures var segments := Flatten(LibraryOf(definitions, morseRequired, segmentBytes), tokens, depth).value;
            forall i :: 0 <= i < |segments| ==> OwnerDefined(definitions, segments[i])
    decreases depth, |tokens|
  {
    if tokens != [] {
      FlattenedOwners(definitions, morseRequired, segmentBytes, tokens[1..], depth);
      if tokens[0].Reference? {
        var name := tokens[0].name;
        LoadedOwners(definitions[name], Some(name), morseRequired, definitions);
        FlattenedOwners(definitions, morseRequired, segmentBytes,
            LoadSettings(definitions[name], Some(name), morseRequired).value, depth - 1);
      }
    }
  }
}
