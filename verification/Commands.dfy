/**
  The DTMF command map: which prefixes may live together, what a digit string means under a
  map, and why neither depends on the order the mappings were written in.
 */
module Commands {
  import opened Options
  import RemoteCommands

  datatype LinkAction =
    | Disconnect | Monitor | Transceive | Command | Status | DisconnectAll | DisconnectPermanentAll | LastKeyed
    | LocalMonitor | DisconnectPermanent | PermanentMonitor | PermanentTransceive | FullStatus | ReconnectAll
    | ReconnectPermanentAll | PermanentLocalMonitor | DisconnectNonPermanentAll | Time | AdminUnlock | AdminLock
    | ParrotEnable | ParrotDisable | PadTest | Message | SiteStatus | CancelMessage | EchoTelemetry | RemoteBase

  datatype Mapping = Mapping(digits: string, action: LinkAction)

  datatype Parsed = Parsed(action: LinkAction, node: string)

  datatype MapError = InvalidPrefix | AmbiguousPrefix

  predicate Digit(c: char) {
    '0' <= c <= '9'
  }

  predicate Key(c: char) {
    Digit(c) || 'A' <= c <= 'D'
  }

  predicate TakesNode(a: LinkAction) {
    !(a.Status? || a.DisconnectAll? || a.DisconnectPermanentAll? || a.LastKeyed? || a.FullStatus? || a.ReconnectAll?
      || a.ReconnectPermanentAll? || a.DisconnectNonPermanentAll? || a.Time? || a.ParrotEnable? || a.ParrotDisable?
      || a.PadTest? || a.CancelMessage? || a.RemoteBase?)
  }

  predicate BadPrefix(m: Mapping) {
    |m.digits| > 63 || exists i :: 0 <= i < |m.digits| && !Key(m.digits[i])
  }

  /** Neither the message and status families nor the remote base may share a prefix with anything. */
  predicate Exclusive(a: LinkAction) {
    a.Message? || a.SiteStatus? || a.RemoteBase?
  }

  /** The collision rule, as written for a pair in list order. */
  predicate Clashes(left: Mapping, right: Mapping) {
    && left.digits != "" && right.digits != ""
    && (right.digits <= left.digits || left.digits <= right.digits)
    && (|| left.digits == right.digits
        || TakesNode((if |left.digits| > |right.digits| then left else right).action)
        || Exclusive(left.action) || Exclusive(right.action))
  }

  /** None when the map is valid. */
  function Validate(ms: seq<Mapping>): Option<MapError> {
    if exists m :: m in ms && BadPrefix(m) then Some(InvalidPrefix)
    else if exists i, j :: 0 <= i < j < |ms| && Clashes(ms[i], ms[j]) then Some(AmbiguousPrefix)
    else None
  }

  /** An argument-free command typed in full. */
  predicate Exact(m: Mapping, digits: string) {
    m.digits != "" && !m.action.RemoteBase? && !TakesNode(m.action) && m.digits == digits
  }

  /** A command prefix followed by its decimal argument. */
  predicate Prefixed(m: Mapping, digits: string) {
    && m.digits != "" && m.digits <= digits && TakesNode(m.action)
    && |m.digits| < |digits| && forall i :: |m.digits| <= i < |digits| ==> Digit(digits[i])
  }

  function FindExact(ms: seq<Mapping>, digits: string): Option<Parsed> {
    if ms == [] then None
    else if Exact(ms[0], digits) then Some(Parsed(ms[0].action, ""))
    else FindExact(ms[1..], digits)
  }

  function FindPrefixed(ms: seq<Mapping>, digits: string): Option<Parsed> {
    if ms == [] then None
    else if Prefixed(ms[0], digits) then Some(Parsed(ms[0].action, digits[|ms[0].digits|..]))
    else FindPrefixed(ms[1..], digits)
  }

  function Parse(ms: seq<Mapping>, digits: string): Option<Parsed> {
    match FindExact(ms, digits)
    case Some(c) => Some(c)
    case None => FindPrefixed(ms, digits)
  }

  function FindRemote(ms: seq<Mapping>): Option<string> {
    if ms == [] then None
    else if Remote(ms[0]) then Some(ms[0].digits)
    else FindRemote(ms[1..])
  }

  /** An enabled remote-base mapping. */
  predicate Remote(m: Mapping) {
    m.action.RemoteBase? && m.digits != ""
  }

  function ParseRemote(ms: seq<Mapping>, digits: string): Option<RemoteCommands.RemoteCommand> {
    match FindRemote(ms)
    case None => None
    case Some(prefix) =>
      if prefix <= digits then RemoteCommands.ParseRemoteCommand(digits[|prefix|..]) else None
  }

  /** Whether a digit string belongs to the variable-length remote-base family. */
  predicate RemoteFamily(ms: seq<Mapping>, digits: string) {
    exists m :: m in ms && Remote(m) && m.digits <= digits
  }

  predicate MayExtend(ms: seq<Mapping>, digits: string) {
    exists m :: m in ms && !TakesNode(m.action) && |m.digits| > |digits| && digits <= m.digits
  }

  // ---- Order does not matter ----

  lemma ClashesSymmetric(a: Mapping, b: Mapping)
    ensures Clashes(a, b) == Clashes(b, a)
  {
    if |a.digits| == |b.digits| && (a.digits <= b.digits || b.digits <= a.digits) {
      assert a.digits == b.digits;
    }
  }

  /** In a valid map two different entries, wherever they stand, do not clash. */
  lemma ValidPairs(ms: seq<Mapping>, a: Mapping, b: Mapping)
    requires Validate(ms) == None && a in ms && b in ms && a != b
    ensures !Clashes(a, b)
  {
    var i :| 0 <= i < |ms| && ms[i] == a;
    var j :| 0 <= j < |ms| && ms[j] == b;
    ClashesSymmetric(a, b);
    assert i < j || j < i;
  }

  /** Two occurrences of an element, in whichever order. */
  lemma {:induction false} TwoPositions<T>(s: seq<T>, a: T, b: T) returns (i: nat, j: nat)
    requires if a == b then multiset(s)[a] >= 2 else a in s && b in s
    ensures i < j < |s| && ((s[i] == a && s[j] == b) || (s[i] == b && s[j] == a))
    decreases |s|
  {
    assert s == [s[0]] + s[1..];
    if s[0] == a {
      assert b in multiset(s[1..]);
      var k :| 0 <= k < |s[1..]| && s[1..][k] == b;
      i, j := 0, k + 1;
    } else if s[0] == b {
      assert a in multiset(s[1..]);
      var k :| 0 <= k < |s[1..]| && s[1..][k] == a;
      i, j := 0, k + 1;
    } else {
      var i', j' := TwoPositions(s[1..], a, b);
      i, j := i' + 1, j' + 1;
    }
  }

  lemma {:induction false} TwiceAt<T>(s: seq<T>, i: nat, j: nat)
    requires i < j < |s| && s[i] == s[j]
    ensures multiset(s)[s[i]] >= 2
  {
    assert s == s[..j] + [s[j]] + s[j + 1..];
    assert s[..j][i] == s[i];
    assert s[i] in multiset(s[..j]);
  }

  lemma SameMembers(ms: seq<Mapping>, ns: seq<Mapping>)
    requires multiset(ms) == multiset(ns)
    ensures forall m :: m in ms <==> m in ns
  {
    forall m ensures m in ms <==> m in ns {
      assert m in ms <==> m in multiset(ms);
      assert m in ns <==> m in multiset(ns);
    }
  }

  lemma ClashMoves(ms: seq<Mapping>, ns: seq<Mapping>)
    requires multiset(ms) == multiset(ns)
    requires exists i, j :: 0 <= i < j < |ms| && Clashes(ms[i], ms[j])
    ensures exists i, j :: 0 <= i < j < |ns| && Clashes(ns[i], ns[j])
  {
    var i, j :| 0 <= i < j < |ms| && Clashes(ms[i], ms[j]);
    SameMembers(ms, ns);
    ClashesSymmetric(ms[i], ms[j]);
    if ms[i] == ms[j] {
      TwiceAt(ms, i, j);
    }
    var k, l := TwoPositions(ns, ms[i], ms[j]);
    assert Clashes(ns[k], ns[l]);
  }

  /** Reordering a map changes neither whether it is accepted nor the error it is refused with. */
  lemma ValidateOrderFree(ms: seq<Mapping>, ns: seq<Mapping>)
    requires multiset(ms) == multiset(ns)
    ensures Validate(ms) == Validate(ns)
  {
    SameMembers(ms, ns);
    if exists i, j :: 0 <= i < j < |ms| && Clashes(ms[i], ms[j]) {
      ClashMoves(ms, ns);
    }
    if exists i, j :: 0 <= i < j < |ns| && Clashes(ns[i], ns[j]) {
      ClashMoves(ns, ms);
    }
  }

  /** What a digit string means, said of the mappings as a set: the full argument-free command wins over a prefix. */
  ghost predicate Denotes(ms: set<Mapping>, digits: string, c: Parsed) {
    || (exists m :: m in ms && Exact(m, digits) && c == Parsed(m.action, ""))
    || ((forall m :: m in ms ==> !Exact(m, digits))
        && exists m :: m in ms && Prefixed(m, digits) && c == Parsed(m.action, digits[|m.digits|..]))
  }

  function Members(ms: seq<Mapping>): set<Mapping> {
    set m | m in ms
  }

  lemma {:induction false} FindExactMeaning(ms: seq<Mapping>, digits: string)
    ensures FindExact(ms, digits).None? <==> forall m :: m in ms ==> !Exact(m, digits)
    ensures FindExact(ms, digits).Some? ==>
              exists m :: m in ms && Exact(m, digits) && FindExact(ms, digits).value == Parsed(m.action, "")
  {
    if ms != [] {
      assert ms == [ms[0]] + ms[1..];
      FindExactMeaning(ms[1..], digits);
    }
  }

  lemma {:induction false} FindPrefixedMeaning(ms: seq<Mapping>, digits: string)
    ensures FindPrefixed(ms, digits).None? <==> forall m :: m in ms ==> !Prefixed(m, digits)
    ensures FindPrefixed(ms, digits).Some? ==>
              exists m :: m in ms && Prefixed(m, digits)
                          && FindPrefixed(ms, digits).value == Parsed(m.action, digits[|m.digits|..])
  {
    if ms != [] {
      assert ms == [ms[0]] + ms[1..];
      FindPrefixedMeaning(ms[1..], digits);
    }
  }

  /** A valid map has one entry that can match in each way. */
  lemma OneMatch(ms: seq<Mapping>, digits: string, a: Mapping, b: Mapping)
    requires Validate(ms) == None && a in ms && b in ms
    requires (Exact(a, digits) && Exact(b, digits)) || (Prefixed(a, digits) && Prefixed(b, digits))
    ensures a == b
  {
    if a != b {
      assert a.digits <= b.digits || b.digits <= a.digits;
      ValidPairs(ms, a, b);
    }
  }

  /** A valid map denotes at most one command for a digit string, and parsing finds it. */
  lemma ParseMeaning(ms: seq<Mapping>, digits: string, c: Parsed)
    requires Validate(ms) == None
    ensures Parse(ms, digits) == Some(c) <==> Denotes(Members(ms), digits, c)
  {
    FindExactMeaning(ms, digits);
    FindPrefixedMeaning(ms, digits);
    if Parse(ms, digits).Some? && Denotes(Members(ms), digits, c) {
      forall a, b | a in ms && b in ms && Exact(a, digits) && Exact(b, digits) ensures a == b {
        OneMatch(ms, digits, a, b);
      }
      forall a, b | a in ms && b in ms && Prefixed(a, digits) && Prefixed(b, digits) ensures a == b {
        OneMatch(ms, digits, a, b);
      }
    }
  }

  /** Parsing under a valid map does not depend on the order of its entries. */
  lemma ParseOrderFree(ms: seq<Mapping>, ns: seq<Mapping>, digits: string)
    requires Validate(ms) == None && multiset(ms) == multiset(ns)
    ensures Parse(ms, digits) == Parse(ns, digits)
  {
    ValidateOrderFree(ms, ns);
    SameMembers(ms, ns);
    assert Members(ms) == Members(ns);
    if Parse(ms, digits).Some? {
      ParseMeaning(ms, digits, Parse(ms, digits).value);
      ParseMeaning(ns, digits, Parse(ms, digits).value);
    } else if Parse(ns, digits).Some? {
      ParseMeaning(ms, digits, Parse(ns, digits).value);
      ParseMeaning(ns, digits, Parse(ns, digits).value);
    }
  }

  /** Everything that continues a message or status prefix with digits is that command: nothing shadows it. */
  lemma ExclusiveNeverShadowed(ms: seq<Mapping>, m: Mapping, digits: string)
    requires Validate(ms) == None && m in ms && Exclusive(m.action) && Prefixed(m, digits)
    ensures Parse(ms, digits) == Some(Parsed(m.action, digits[|m.digits|..]))
  {
    forall x | x in ms ensures !Exact(x, digits) {
      if Exact(x, digits) {
        ValidPairs(ms, x, m);
      }
    }
    ParseMeaning(ms, digits, Parsed(m.action, digits[|m.digits|..]));
  }

  /** No digit string is both a link command and in the remote-base family. */
  lemma FamiliesDisjoint(ms: seq<Mapping>, digits: string)
    requires Validate(ms) == None && RemoteFamily(ms, digits)
    ensures Parse(ms, digits) == None
  {
    FindExactMeaning(ms, digits);
    FindPrefixedMeaning(ms, digits);
    var r :| r in ms && Remote(r) && r.digits <= digits;
    forall m | m in ms ensures !Exact(m, digits) && !Prefixed(m, digits) {
      if Exact(m, digits) || Prefixed(m, digits) {
        assert m.digits <= r.digits || r.digits <= m.digits;
        ValidPairs(ms, m, r);
      }
    }
  }

  // ---- The remote base: order matters exactly when there are two of them ----

  ghost predicate OneRemote(ms: seq<Mapping>) {
    forall a, b :: a in ms && b in ms && Remote(a) && Remote(b) ==> a == b
  }

  lemma {:induction false} FindRemoteMeaning(ms: seq<Mapping>)
    ensures FindRemote(ms).None? <==> forall m :: m in ms ==> !Remote(m)
    ensures FindRemote(ms).Some? ==> exists m :: m in ms && Remote(m) && FindRemote(ms).value == m.digits
  {
    if ms != [] {
      assert ms == [ms[0]] + ms[1..];
      FindRemoteMeaning(ms[1..]);
    }
  }

  lemma {:induction false} FindRemoteFirst(ms: seq<Mapping>, i: nat)
    requires i < |ms| && Remote(ms[i]) && forall k :: 0 <= k < i ==> !Remote(ms[k])
    ensures FindRemote(ms) == Some(ms[i].digits)
  {
    if i > 0 {
      FindRemoteFirst(ms[1..], i - 1);
    }
  }

  lemma OneRemoteOrderFree(ms: seq<Mapping>, ns: seq<Mapping>, digits: string)
    requires OneRemote(ms) && multiset(ms) == multiset(ns)
    ensures ParseRemote(ms, digits) == ParseRemote(ns, digits)
  {
    SameMembers(ms, ns);
    FindRemoteMeaning(ms);
    FindRemoteMeaning(ns);
  }

  lemma {:induction false} FirstRemote(ms: seq<Mapping>) returns (i: nat)
    requires exists m :: m in ms && Remote(m)
    ensures i < |ms| && Remote(ms[i]) && forall k :: 0 <= k < i ==> !Remote(ms[k])
  {
    assert ms == [ms[0]] + ms[1..];
    if Remote(ms[0]) {
      i := 0;
    } else {
      var j := FirstRemote(ms[1..]);
      i := j + 1;
      forall k | 0 <= k < i ensures !Remote(ms[k]) {
        assert k == 0 || ms[k] == ms[1..][k - 1];
      }
    }
  }

  function Swapped<T>(s: seq<T>, i: nat, j: nat): seq<T>
    requires i < |s| && j < |s|
  {
    s[i := s[j]][j := s[i]]
  }

  lemma SwappedIsPermutation<T>(s: seq<T>, i: nat, j: nat)
    requires i < |s| && j < |s|
    ensures multiset(Swapped(s, i, j)) == multiset(s)
  {
  }

  lemma RemotesApart(ms: seq<Mapping>, a: Mapping, b: Mapping, code: string)
    requires Validate(ms) == None && a in ms && b in ms && a != b && Remote(a) && Remote(b)
    ensures !(b.digits <= a.digits + code)
  {
    if b.digits <= a.digits + code {
      assert a.digits <= b.digits || b.digits <= a.digits;
      ValidPairs(ms, a, b);
    }
  }

  /** With two enabled remote prefixes, swapping them makes a remote command stop parsing. */
  lemma TwoRemotesOrdered(ms: seq<Mapping>) returns (ns: seq<Mapping>, digits: string)
    requires Validate(ms) == None && !OneRemote(ms)
    ensures multiset(ms) == multiset(ns) && ParseRemote(ms, digits).Some? && ParseRemote(ns, digits).None?
  {
    var i := FirstRemote(ms);
    var a, b :| a in ms && b in ms && Remote(a) && Remote(b) && a != b;
    var other := if a == ms[i] then b else a;
    var j :| 0 <= j < |ms| && ms[j] == other;
    ns := Swapped(ms, i, j);
    SwappedIsPermutation(ms, i, j);
    var code := RemoteCommands.ACCEPTED_CODE;
    RemoteCommands.AcceptedCodeParses();
    digits := ms[i].digits + code;
    assert digits[|ms[i].digits|..] == code;
    FindRemoteFirst(ms, i);
    FindRemoteFirst(ns, i);
    RemotesApart(ms, ms[i], other, code);
  }

  /** Such a map: two remote prefixes, neither a prefix of the other, pass validation. */
  lemma TwoRemotesValid()
    ensures var ms := [Mapping("81", RemoteBase), Mapping("82", RemoteBase)];
            Validate(ms) == None && !OneRemote(ms)
  {
    var a, b := Mapping("81", RemoteBase), Mapping("82", RemoteBase);
    var ms := [a, b];
    assert a.digits[1] != b.digits[1];
    assert forall i, j :: 0 <= i < j < |ms| ==> ms[i] == a && ms[j] == b;
    assert a in ms && b in ms && Remote(a) && Remote(b) && a != b;
  }

  /**
    Remote parsing under a valid map ignores the order of entries if and only if at most one remote
    prefix is enabled.
   */
  lemma RemoteOrderFree(ms: seq<Mapping>)
    requires Validate(ms) == None
    ensures OneRemote(ms) <==>
            forall ns, digits :: multiset(ms) == multiset(ns) ==> ParseRemote(ms, digits) == ParseRemote(ns, digits)
  {
    if OneRemote(ms) {
      forall ns, digits | multiset(ms) == multiset(ns)
        ensures ParseRemote(ms, digits) == ParseRemote(ns, digits)
      {
        OneRemoteOrderFree(ms, ns, digits);
      }
    } else {
      var ns, digits := TwoRemotesOrdered(ms);
      assert ParseRemote(ms, digits) != ParseRemote(ns, digits);
    }
  }
}
