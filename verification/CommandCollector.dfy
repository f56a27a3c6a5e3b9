/**
  Bounded DTMF collection: the collector fed one key at a time, and what its whole history
  says about the text it hands on.
 */
module CommandCollector {
  import opened Options
  import opened Commands

  const TICK := '\0'
  const U64_RANGE: nat := 0x1_0000_0000_0000_0000
  const TIMEOUT_MS: nat := 3000
  const MAX_TEXT: nat := 127

  /** One key, or the timeout tick, with its millisecond clock. */
  datatype Press = Press(key: char, now: nat)

  datatype State = State(digits: string, lastMs: nat, active: bool)

  const IDLE := State("", 0, false)

  /** Wrapping subtraction on the 64-bit clock. */
  function Elapsed(now: nat, last: nat): nat {
    (now - last) % U64_RANGE
  }

  predicate Accepted(c: char) {
    Key(c) || c == '*'
  }

  /** A complete argument-free command that cannot become a longer one. */
  predicate AutoFinish(ms: seq<Mapping>, digits: string) {
    Parse(ms, digits).Some? && Parse(ms, digits).value.node == "" && !MayExtend(ms, digits)
  }

  predicate InFamily(ms: seq<Mapping>, s: State) {
    s.active && RemoteFamily(ms, s.digits)
  }

  function Emit(s: State): (State, Option<string>) {
    (s.(active := false), if s.digits == "" then None else Some(s.digits))
  }

  function Feed(ms: seq<Mapping>, s: State, p: Press): (State, Option<string>) {
    if p.key == '*' && !InFamily(ms, s) then (State("", p.now, true), None)
    else if !s.active then (s, None)
    else if p.key == '#' then Emit(s)
    else if p.key == TICK then (if Elapsed(p.now, s.lastMs) >= TIMEOUT_MS then Emit(s) else (s, None))
    else if !Accepted(p.key) || |s.digits| == MAX_TEXT then (s.(active := false), None)
    else
      var next := State(s.digits + [p.key], p.now, true);
      if AutoFinish(ms, next.digits) then Emit(next) else (next, None)
  }

  /** The collector as the program keeps it. */
  class Collector {
    const mappings: seq<Mapping>
    var digits: string
    var lastMs: nat
    var active: bool

    function Current(): State
      reads this
    {
      State(digits, lastMs, active)
    }

    constructor (mappings: seq<Mapping>)
      ensures this.mappings == mappings && Current() == IDLE
    {
      this.mappings := mappings;
      digits, lastMs, active := "", 0, false;
    }

    /** Feed one key or the tick; the text of a finished command comes back. */
    method FeedKey(digit: char, nowMs: nat) returns (text: Option<string>)
      modifies this
      ensures (Current(), text) == Feed(mappings, old(Current()), Press(digit, nowMs))
    {
      var remote := active && RemoteFamily(mappings, digits);
      if digit == '*' && !remote {
        digits, active, lastMs := "", true, nowMs;
        return None;
      }
      if !active {
        return None;
      }
      var finish := digit == '#' || (digit == TICK && Elapsed(nowMs, lastMs) >= TIMEOUT_MS);
      if digit != TICK && digit != '#' {
        if !(Key(digit) || digit == '*') || |digits| == MAX_TEXT {
          active := false;
          return None;
        }
        digits := digits + [digit];
        lastMs := nowMs;
        var command := Parse(mappings, digits);
        finish := command.Some? && command.value.node == "" && !MayExtend(mappings, digits);
      }
      if !finish {
        return None;
      }
      active := false;
      return if digits == "" then None else Some(digits);
    }
  }

  // ---- Histories ----

  function After(ms: seq<Mapping>, h: seq<Press>): State {
    if h == [] then IDLE else Feed(ms, After(ms, h[..|h| - 1]), h[|h| - 1]).0
  }

  /** What the last key of a history makes the collector hand on. */
  function Emitted(ms: seq<Mapping>, h: seq<Press>): Option<string> {
    if h == [] then None else Feed(ms, After(ms, h[..|h| - 1]), h[|h| - 1]).1
  }

  /** The keys of a stretch of history, without ticks and terminators. */
  function Typed(h: seq<Press>): string {
    if h == [] then ""
    else
      var c := h[|h| - 1].key;
      Typed(h[..|h| - 1]) + (if c == TICK || c == '#' then "" else [c])
  }

  /** When the last key that was not a tick came. */
  function LastKey(h: seq<Press>): nat {
    if h == [] then 0 else if h[|h| - 1].key == TICK then LastKey(h[..|h| - 1]) else h[|h| - 1].now
  }

  /** The k-th key restarts collection. */
  predicate Resets(ms: seq<Mapping>, h: seq<Press>, k: nat) {
    k < |h| && h[k].key == '*' && !InFamily(ms, After(ms, h[..k]))
  }

  /** Text under way: bounded, stars only after a full remote prefix, and nothing finished along the way. */
  ghost predicate UnderWay(ms: seq<Mapping>, text: string) {
    && |text| <= MAX_TEXT
    && (forall i :: 0 <= i < |text| ==> Accepted(text[i]) && (text[i] == '*' ==> RemoteFamily(ms, text[..i])))
    && (forall i :: 1 <= i <= |text| ==> !AutoFinish(ms, text[..i]))
  }

  /** The j-th key leaves a session that began at k open. */
  predicate StaysOpen(ms: seq<Mapping>, h: seq<Press>, k: nat, j: nat)
    requires k < j < |h|
  {
    && !Resets(ms, h, j) && h[j].key != '#'
    && (h[j].key == TICK ==> Elapsed(h[j].now, LastKey(h[k..j])) < TIMEOUT_MS)
  }

  /** A session opened by the reset at k is still open at the end of the history. */
  ghost predicate Session(ms: seq<Mapping>, h: seq<Press>, k: nat) {
    && Resets(ms, h, k)
    && (forall j :: k < j < |h| ==> StaysOpen(ms, h, k, j))
    && UnderWay(ms, Typed(h[k + 1..]))
  }

  lemma AutoFinishMeaning(ms: seq<Mapping>, digits: string)
    ensures AutoFinish(ms, digits) <==> (exists m :: m in ms && Exact(m, digits)) && !MayExtend(ms, digits)
  {
    FindExactMeaning(ms, digits);
    FindPrefixedMeaning(ms, digits);
  }

  lemma SuffixFacts(h: seq<Press>, k: nat)
    requires k < |h| - 1
    ensures h[k + 1..][..|h| - 1 - (k + 1)] == h[..|h| - 1][k + 1..] && h[k + 1..][|h| - 1 - (k + 1)] == h[|h| - 1]
    ensures h[k..][..|h| - 1 - k] == h[..|h| - 1][k..] && h[k..][|h| - 1 - k] == h[|h| - 1]
  {
  }

  lemma PrefixResets(ms: seq<Mapping>, h: seq<Press>, n: nat, j: nat)
    requires j < n <= |h|
    ensures Resets(ms, h[..n], j) == Resets(ms, h, j)
  {
    assert h[..n][..j] == h[..j];
  }

  lemma PrefixStaysOpen(ms: seq<Mapping>, h: seq<Press>, n: nat, k: nat, j: nat)
    requires k < j < n <= |h|
    ensures StaysOpen(ms, h[..n], k, j) == StaysOpen(ms, h, k, j)
  {
    PrefixResets(ms, h, n, j);
    assert h[..n][k..j] == h[k..j];
  }

  lemma UnderWayExtends(ms: seq<Mapping>, text: string, c: char)
    ensures UnderWay(ms, text + [c]) <==>
            && UnderWay(ms, text) && |text| < MAX_TEXT && Accepted(c) && (c == '*' ==> RemoteFamily(ms, text))
            && !AutoFinish(ms, text + [c])
  {
    var next := text + [c];
    assert forall i :: 0 <= i <= |text| ==> next[..i] == text[..i];
    assert next[..|next|] == next && next[..|text|] == text;
    assert forall i :: 0 <= i < |text| ==> next[i] == text[i];
    assert next[|text|] == c;
  }

  /** What the last key must be for an open session to go on, given the text and time so far. */
  predicate GoesOn(ms: seq<Mapping>, text: string, last: nat, p: Press) {
    && p.key != '#' && (p.key == TICK ==> Elapsed(p.now, last) < TIMEOUT_MS)
    && (p.key == '*' ==> RemoteFamily(ms, text))
    && (p.key != TICK ==> |text| < MAX_TEXT && Accepted(p.key) && !AutoFinish(ms, text + [p.key]))
  }

  lemma FeedOpen(ms: seq<Mapping>, text: string, last: nat, p: Press)
    requires |text| <= MAX_TEXT && (p.key == '*' ==> RemoteFamily(ms, text))
    ensures var next := Feed(ms, State(text, last, true), p).0;
            && next.active == GoesOn(ms, text, last, p)
            && (next.active ==> next == if p.key == TICK then State(text, last, true)
                else State(text + [p.key], p.now, true))
  {
  }

  /** A session longer than its opening key is a shorter session that went on. */
  lemma SessionStep(ms: seq<Mapping>, h: seq<Press>, k: nat)
    requires k < |h| - 1
    ensures var h', p := h[..|h| - 1], h[|h| - 1];
            Session(ms, h, k) <==>
            Session(ms, h', k) && !Resets(ms, h, |h| - 1) && GoesOn(ms, Typed(h'[k + 1..]), LastKey(h'[k..]), p)
  {
    var n := |h| - 1;
    var h', p := h[..n], h[n];
    SuffixFacts(h, k);
    PrefixResets(ms, h, n, k);
    forall j | k < j < n ensures StaysOpen(ms, h', k, j) == StaysOpen(ms, h, k, j) {
      PrefixStaysOpen(ms, h, n, k, j);
    }
    assert h[k..n] == h'[k..];
    var text := Typed(h'[k + 1..]);
    if p.key != TICK && p.key != '#' {
      UnderWayExtends(ms, text, p.key);
      assert Typed(h[k + 1..]) == text + [p.key];
    } else {
      assert Typed(h[k + 1..]) == text + "" == text;
    }
    if Session(ms, h, k) {
      assert StaysOpen(ms, h, k, n);
      assert forall j :: k < j < n ==> StaysOpen(ms, h, k, j);
      assert Session(ms, h', k);
    }
    if Session(ms, h', k) && !Resets(ms, h, n) && GoesOn(ms, text, LastKey(h'[k..]), p) {
      assert StaysOpen(ms, h, k, n);
      assert forall j :: k < j < n ==> StaysOpen(ms, h', k, j);
      assert Session(ms, h, k);
    }
  }

  /** In an open session the collector holds exactly the keys typed since the reset and the last key's time. */
  lemma {:induction false} SessionHolds(ms: seq<Mapping>, h: seq<Press>, k: nat)
    requires Session(ms, h, k)
    ensures After(ms, h) == State(Typed(h[k + 1..]), LastKey(h[k..]), true)
    decreases |h|
  {
    var n := |h| - 1;
    if k == n {
      assert h[k + 1..] == [] && h[k..] == [h[k]];
    } else {
      var h', p := h[..n], h[n];
      SessionStep(ms, h, k);
      SessionHolds(ms, h', k);
      SuffixFacts(h, k);
      FeedOpen(ms, Typed(h'[k + 1..]), LastKey(h'[k..]), p);
    }
  }

  /** A collector that is active is in a session. */
  lemma {:induction false} ActiveHasSession(ms: seq<Mapping>, h: seq<Press>) returns (k: nat)
    requires After(ms, h).active
    ensures Session(ms, h, k)
    decreases |h|
  {
    var n := |h| - 1;
    var h', p := h[..n], h[n];
    if Resets(ms, h, n) {
      k := n;
      assert h[k + 1..] == [];
    } else {
      k := ActiveHasSession(ms, h');
      SessionHolds(ms, h', k);
      FeedOpen(ms, Typed(h'[k + 1..]), LastKey(h'[k..]), p);
      SessionStep(ms, h, k);
    }
  }

  /** The collector is active exactly while a session is open, and only one reset can have opened it. */
  lemma ActiveExactly(ms: seq<Mapping>, h: seq<Press>)
    ensures After(ms, h).active <==> exists k: nat :: Session(ms, h, k)
    ensures forall k: nat, l: nat :: Session(ms, h, k) && Session(ms, h, l) ==> k == l
  {
    if After(ms, h).active {
      var k := ActiveHasSession(ms, h);
    }
    forall k: nat, l: nat | Session(ms, h, k) && Session(ms, h, l)
      ensures k == l
    {
      assert k < l ==> StaysOpen(ms, h, k, l);
      assert l < k ==> StaysOpen(ms, h, l, k);
    }
    forall k: nat | Session(ms, h, k) ensures After(ms, h).active {
      SessionHolds(ms, h, k);
    }
  }

  /** How the last key of a history ends the session opened at k, handing on some text. */
  ghost predicate Closes(ms: seq<Mapping>, h: seq<Press>, k: nat, out: string)
    requires k < |h| - 1
  {
    var p, text, last := h[|h| - 1], Typed(h[k + 1..|h| - 1]), LastKey(h[k..|h| - 1]);
    && !Resets(ms, h, |h| - 1) && out != ""
    && (|| (p.key == '#' && out == text)
        || (p.key == TICK && Elapsed(p.now, last) >= TIMEOUT_MS && out == text)
        || (Accepted(p.key) && |text| < MAX_TEXT && out == text + [p.key] && AutoFinish(ms, out)))
  }

  ghost predicate Hands(ms: seq<Mapping>, h: seq<Press>, k: nat, out: string) {
    k < |h| - 1 && Session(ms, h[..|h| - 1], k) && Closes(ms, h, k, out)
  }

  lemma SessionEmits(ms: seq<Mapping>, h: seq<Press>, k: nat, out: string)
    requires k < |h| - 1 && Session(ms, h[..|h| - 1], k)
    ensures Emitted(ms, h) == Some(out) <==> Closes(ms, h, k, out)
  {
    var h' := h[..|h| - 1];
    SessionHolds(ms, h', k);
    assert h'[k + 1..] == h[k + 1..|h| - 1] && h'[k..] == h[k..|h| - 1];
  }

  /** Text is handed on exactly when the last key closes an open session in one of the three ways. */
  lemma EmittedExactly(ms: seq<Mapping>, h: seq<Press>, out: string)
    ensures Emitted(ms, h) == Some(out) <==> exists k: nat :: Hands(ms, h, k, out)
  {
    if Emitted(ms, h) == Some(out) {
      var k := ActiveHasSession(ms, h[..|h| - 1]);
      SessionEmits(ms, h, k, out);
      assert Hands(ms, h, k, out);
    }
    forall k: nat | Hands(ms, h, k, out)
      ensures Emitted(ms, h) == Some(out)
    {
      SessionEmits(ms, h, k, out);
    }
  }

  /** Text a collector can hand on: as under way, except that the whole of it may be a finished command. */
  ghost predicate Typeable(ms: seq<Mapping>, text: string) {
    && 0 < |text| <= MAX_TEXT
    && (forall i :: 0 <= i < |text| ==> Accepted(text[i]) && (text[i] == '*' ==> RemoteFamily(ms, text[..i])))
    && (forall i :: 1 <= i < |text| ==> !AutoFinish(ms, text[..i]))
  }

  lemma TypeableEnds(ms: seq<Mapping>, text: string, c: char)
    ensures Typeable(ms, text + [c]) <==>
            UnderWay(ms, text) && |text| < MAX_TEXT && Accepted(c) && (c == '*' ==> RemoteFamily(ms, text))
    ensures UnderWay(ms, text + [c]) ==> Typeable(ms, text + [c])
    ensures Typeable(ms, text + [c]) && !AutoFinish(ms, text + [c]) ==> UnderWay(ms, text + [c])
  {
    var next := text + [c];
    assert forall i :: 0 <= i <= |text| ==> next[..i] == text[..i];
    assert next[..|next|] == next;
    assert forall i :: 0 <= i < |text| ==> next[i] == text[i];
    assert next[|text|] == c;
  }

  lemma HandedKeys(ms: seq<Mapping>, h: seq<Press>, k: nat, out: string)
    requires Hands(ms, h, k, out)
    ensures Resets(ms, h, k) && (forall j :: k < j < |h| ==> !Resets(ms, h, j)) && out == Typed(h[k + 1..])
  {
    var n := |h| - 1;
    SuffixFacts(h, k);
    assert h[..n][k + 1..] == h[k + 1..n];
    PrefixResets(ms, h, n, k);
    forall j | k < j < |h| ensures !Resets(ms, h, j) {
      if j < n {
        PrefixStaysOpen(ms, h, n, k, j);
        assert StaysOpen(ms, h[..n], k, j);
      }
    }
  }

  lemma HandedIsTypeable(ms: seq<Mapping>, h: seq<Press>, k: nat, out: string)
    requires Hands(ms, h, k, out)
    ensures Typeable(ms, out)
  {
    var n := |h| - 1;
    var h', p := h[..n], h[n];
    assert h'[k + 1..] == h[k + 1..n];
    var text := Typed(h'[k + 1..]);
    SessionHolds(ms, h', k);
    if p.key == '#' || p.key == TICK {
      assert out == text[..|text| - 1] + [text[|text| - 1]];
      TypeableEnds(ms, text[..|text| - 1], text[|text| - 1]);
    } else {
      TypeableEnds(ms, text, p.key);
    }
  }

  /**
    Whatever a collector hands on, it is exactly the keys since the last resetting star, within the
    limits, with stars only after a full remote prefix; and without a terminator or a timeout it is
    an argument-free command that no enabled argument-free mapping extends.
   */
  lemma EmittedText(ms: seq<Mapping>, h: seq<Press>, out: string) returns (k: nat)
    requires Emitted(ms, h) == Some(out)
    ensures Resets(ms, h, k) && (forall j :: k < j < |h| ==> !Resets(ms, h, j)) && out == Typed(h[k + 1..])
    ensures Typeable(ms, out)
    ensures h[|h| - 1].key == '#'
            || (h[|h| - 1].key == TICK && Elapsed(h[|h| - 1].now, LastKey(h[k..|h| - 1])) >= TIMEOUT_MS)
            || ((exists m :: m in ms && Exact(m, out))
                && forall m :: m in ms && !TakesNode(m.action) && out <= m.digits ==> m.digits == out)
  {
    EmittedExactly(ms, h, out);
    k :| Hands(ms, h, k, out);
    HandedKeys(ms, h, k, out);
    HandedIsTypeable(ms, h, k, out);
    AutoFinishMeaning(ms, out);
    assert !MayExtend(ms, out) ==> forall m :: m in ms && !TakesNode(m.action) && out <= m.digits ==> m.digits == out;
  }

  // ---- Every typeable text can be typed ----

  function Keys(presses: seq<Press>): string {
    if presses == [] then "" else Keys(presses[..|presses| - 1]) + [presses[|presses| - 1].key]
  }

  function Latest(star: Press, presses: seq<Press>): nat {
    if presses == [] then star.now else presses[|presses| - 1].now
  }

  lemma Snoc<T>(before: seq<T>, x: T, rest: seq<T>)
    requires rest != []
    ensures var h, n := before + [x] + rest, |rest| - 1;
            h[..|h| - 1] == before + [x] + rest[..n] && h[|h| - 1] == rest[n]
  {
  }

  /** After any history that is not inside the remote family, a star and then keys under way are collected as typed. */
  lemma {:induction false} TypingIsCollected(ms: seq<Mapping>, before: seq<Press>, star: Press, presses: seq<Press>)
    requires star.key == '*' && !InFamily(ms, After(ms, before)) && UnderWay(ms, Keys(presses))
    ensures After(ms, before + [star] + presses) == State(Keys(presses), Latest(star, presses), true)
    decreases |presses|
  {
    var h := before + [star] + presses;
    if presses == [] {
      assert h == before + [star];
      assert h[..|h| - 1] == before && h[|h| - 1] == star;
    } else {
      var front, p := presses[..|presses| - 1], presses[|presses| - 1];
      Snoc(before, star, presses);
      UnderWayExtends(ms, Keys(front), p.key);
      TypingIsCollected(ms, before, star, front);
      FeedOpen(ms, Keys(front), Latest(star, front), p);
    }
  }

  /** The last key of a finished command hands it on. */
  lemma LastKeyEmits(ms: seq<Mapping>, text: string, last: nat, p: Press)
    requires UnderWay(ms, text) && |text| < MAX_TEXT && Accepted(p.key) && (p.key == '*' ==> RemoteFamily(ms, text))
    requires AutoFinish(ms, text + [p.key])
    ensures Feed(ms, State(text, last, true), p).1 == Some(text + [p.key])
  {
  }

  lemma FinishedIsEmitted(ms: seq<Mapping>, before: seq<Press>, star: Press, presses: seq<Press>)
    requires star.key == '*' && !InFamily(ms, After(ms, before)) && Typeable(ms, Keys(presses))
            && AutoFinish(ms, Keys(presses))
    ensures Emitted(ms, before + [star] + presses) == Some(Keys(presses))
  {
    var front, p := presses[..|presses| - 1], presses[|presses| - 1];
    TypeableEnds(ms, Keys(front), p.key);
    TypingIsCollected(ms, before, star, front);
    Snoc(before, star, presses);
    LastKeyEmits(ms, Keys(front), Latest(star, front), p);
  }

  lemma TerminatedIsEmitted(ms: seq<Mapping>, before: seq<Press>, star: Press, presses: seq<Press>, end: Press)
    requires star.key == '*' && !InFamily(ms, After(ms, before)) && presses != [] && UnderWay(ms, Keys(presses))
            && end.key == '#'
    ensures Emitted(ms, before + [star] + presses + [end]) == Some(Keys(presses))
  {
    var h := before + [star] + presses;
    TypingIsCollected(ms, before, star, presses);
    assert (h + [end])[..|h|] == h && (h + [end])[|h|] == end;
  }

  /** Keys typed so, up to a finished command or closed by the terminator, are handed on as typed. */
  lemma TypedIsEmitted(ms: seq<Mapping>, before: seq<Press>, star: Press, presses: seq<Press>, end: Press)
    requires star.key == '*' && !InFamily(ms, After(ms, before)) && Typeable(ms, Keys(presses)) && end.key == '#'
    ensures var h := before + [star] + presses;
            Emitted(ms, if AutoFinish(ms, Keys(presses)) then h else h + [end]) == Some(Keys(presses))
  {
    if AutoFinish(ms, Keys(presses)) {
      FinishedIsEmitted(ms, before, star, presses);
    } else {
      TypeableEnds(ms, Keys(presses[..|presses| - 1]), presses[|presses| - 1].key);
      TerminatedIsEmitted(ms, before, star, presses, end);
    }
  }

  function PressesOf(text: string): seq<Press> {
    if text == "" then [] else PressesOf(text[..|text| - 1]) + [Press(text[|text| - 1], 0)]
  }

  lemma {:induction false} KeysOfPresses(text: string)
    ensures Keys(PressesOf(text)) == text
  {
    if text != "" {
      var front := PressesOf(text[..|text| - 1]);
      KeysOfPresses(text[..|text| - 1]);
      assert PressesOf(text)[..|front|] == front;
      assert text == text[..|text| - 1] + [text[|text| - 1]];
    }
  }

  /** The texts a collector hands on are exactly the typeable ones. */
  lemma LanguageExactly(ms: seq<Mapping>, text: string)
    ensures Typeable(ms, text) <==> exists h :: Emitted(ms, h) == Some(text)
  {
    if Typeable(ms, text) {
      KeysOfPresses(text);
      assert !InFamily(ms, After(ms, []));
      TypedIsEmitted(ms, [], Press('*', 0), PressesOf(text), Press('#', 0));
    }
    forall h | Emitted(ms, h) == Some(text)
      ensures Typeable(ms, text)
    {
      var k := EmittedText(ms, h, text);
    }
  }
}
