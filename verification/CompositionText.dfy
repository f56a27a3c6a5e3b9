/** The brace grammar of message content: its parser, the matching printer, and that they are inverse. */
module CompositionText {
  import opened Options

  const MAX_MESSAGE_BYTES: nat := 127

  datatype Error = Syntax | MissingDefinition | Cycle | TooLarge

  datatype Result<+T> = Ok(value: T) | Err(error: Error)

  /** One sequence point, with the macro that owns it, or the invoking definition. */
  datatype Segment =
    | Literal(text: string, owner: Option<string>)
    | Message(owner: Option<string>)
    | Media(owner: Option<string>)
    | Tone(owner: Option<string>)

  datatype Token = Point(segment: Segment) | Reference(name: string)

  // ---- Characters ----

  /** Unicode White_Space, which `trim` removes. */
  predicate White(c: char) {
    var n := c as int;
    || 0x09 <= n <= 0x0D || n == 0x20 || n == 0x85 || n == 0xA0 || n == 0x1680
    || 0x2000 <= n <= 0x200A || n == 0x2028 || n == 0x2029 || n == 0x202F || n == 0x205F || n == 0x3000
  }

  function Utf8Bytes(c: char): nat {
    var n := c as int;
    if n < 0x80 then 1 else if n < 0x800 then 2 else if n < 0x1_0000 then 3 else 4
  }

  function ByteLength(s: string): nat {
    if s == [] then 0 else Utf8Bytes(s[0]) + ByteLength(s[1..])
  }

  function TrimStart(s: string): string {
    if s != [] && White(s[0]) then TrimStart(s[1..]) else s
  }

  function TrimEnd(s: string): string {
    if s != [] && White(s[|s| - 1]) then TrimEnd(s[..|s| - 1]) else s
  }

  function Trim(s: string): string {
    TrimEnd(TrimStart(s))
  }

  /** Nothing to trim at either end. */
  predicate Trimmed(s: string) {
    s == [] || (!White(s[0]) && !White(s[|s| - 1]))
  }

  lemma {:induction false} TrimStartTrims(s: string)
    ensures TrimStart(s) == [] || !White(TrimStart(s)[0])
  {
    if s != [] && White(s[0]) {
      TrimStartTrims(s[1..]);
    }
  }

  lemma {:induction false} TrimEndTrims(s: string)
    requires s == [] || !White(s[0])
    ensures Trimmed(TrimEnd(s))
  {
    if s != [] && White(s[|s| - 1]) {
      TrimEndTrims(s[..|s| - 1]);
    }
  }

  lemma TrimTrims(s: string)
    ensures Trimmed(Trim(s))
    ensures Trimmed(s) ==> Trim(s) == s
  {
    TrimStartTrims(s);
    TrimEndTrims(TrimStart(s));
  }

  predicate Brace(c: char) {
    c == '{' || c == '}'
  }

  predicate BraceFree(s: string) {
    forall i :: 0 <= i < |s| ==> !Brace(s[i])
  }

  // ---- Parser ----

  const MACRO_PREFIX: string := "message_macro_"

  function Flush(done: seq<Token>, literal: string, owner: Option<string>): Result<seq<Token>> {
    var value := Trim(literal);
    if ByteLength(value) > MAX_MESSAGE_BYTES then Err(TooLarge)
    else if value == "" then Ok(done)
    else Ok(done + [Point(Literal(value, owner))])
  }

  /** The text up to the closing brace and what follows it; an opening brace or the end is an error. */
  function ScanName(s: string): Option<(string, string)> {
    if s == [] || s[0] == '{' then None
    else if s[0] == '}' then Some(("", s[1..]))
    else
      match ScanName(s[1..])
      case None => None
      case Some((name, rest)) => Some(([s[0]] + name, rest))
  }

  function TokenOf(name: string, owner: Option<string>): Result<Token> {
    if name == "message" then Ok(Point(Message(owner)))
    else if name == "media" then Ok(Point(Media(owner)))
    else if name == "tone_sequence" then Ok(Point(Tone(owner)))
    else if MACRO_PREFIX <= name && |name| > |MACRO_PREFIX| then Ok(Reference(name[|MACRO_PREFIX|..]))
    else Err(Syntax)
  }

  predicate Escaped(s: string) {
    |s| > 1 && Brace(s[0]) && s[1] == s[0]
  }

  lemma {:induction false} ScanNameShrinks(s: string)
    ensures ScanName(s).Some? ==> |ScanName(s).value.1| < |s|
  {
    if s != [] && !Brace(s[0]) {
      ScanNameShrinks(s[1..]);
    }
  }

  /** Parse what is left, given the literal collected so far and the tokens before it. */
  function ParseFrom(s: string, literal: string, done: seq<Token>, owner: Option<string>): Result<seq<Token>>
    decreases |s|
  {
    if s == [] then Flush(done, literal, owner)
    else if Escaped(s) then ParseFrom(s[2..], literal + [s[0]], done, owner)
    else if s[0] == '}' then Err(Syntax)
    else if s[0] == '{' then
      var flushed := Flush(done, literal, owner);
      if flushed.Err? then flushed
      else
        match ScanName(s[1..])
        case None => Err(Syntax)
        case Some((name, rest)) =>
          ScanNameShrinks(s[1..]);
          var token := TokenOf(name, owner);
          if token.Err? then Err(token.error) else ParseFrom(rest, "", flushed.value + [token.value], owner)
    else ParseFrom(s[1..], literal + [s[0]], done, owner)
  }

  function Parse(content: string, owner: Option<string>): Result<seq<Token>> {
    ParseFrom(content, "", [], owner)
  }

  /** Parsing never reports a cycle: only the search over definitions does. */
  lemma {:induction false} ParseNeverCycles(s: string, literal: string, done: seq<Token>, owner: Option<string>)
    ensures ParseFrom(s, literal, done, owner) != Err(Cycle)
    decreases |s|
  {
    if s == [] {
    } else if Escaped(s) {
      ParseNeverCycles(s[2..], literal + [s[0]], done, owner);
    } else if s[0] == '{' {
      var flushed := Flush(done, literal, owner);
      if flushed.Ok? && ScanName(s[1..]).Some? {
        ScanNameShrinks(s[1..]);
        var (name, rest) := ScanName(s[1..]).value;
        if TokenOf(name, owner).Ok? {
          ParseNeverCycles(rest, "", flushed.value + [TokenOf(name, owner).value], owner);
        }
      }
    } else if s[0] != '}' {
      ParseNeverCycles(s[1..], literal + [s[0]], done, owner);
    }
  }

  /** The scan of a name as the program runs it. */
  method ScanNameAt(content: string, start: nat) returns (found: bool, name: string, next: nat)
    requires start <= |content|
    ensures start <= next <= |content|
    ensures found ==> ScanName(content[start..]) == Some((name, content[next..])) && start < next
    ensures !found ==> ScanName(content[start..]).None?
  {
    name, next := "", start;
    ghost var all := content[start..];
    assert ScanName(all).Some? ==> "" + ScanName(all).value.0 == ScanName(all).value.0;
    while next < |content| && !Brace(content[next])
      invariant start <= next <= |content|
      invariant match ScanName(content[next..])
                case None => ScanName(all).None?
                case Some((tail, rest)) => ScanName(all) == Some((name + tail, rest))
    {
      assert content[next..][1..] == content[next + 1..];
      assert forall tail: string :: name + ([content[next]] + tail) == (name + [content[next]]) + tail;
      name := name + [content[next]];
      next := next + 1;
    }
    if next == |content| || content[next] == '{' {
      return false, name, next;
    }
    assert name + "" == name;
    assert content[next..][1..] == content[next + 1..];
    return true, name, next + 1;
  }

  /** The parser as the program runs it: one pass, a literal buffer and a token list. */
  method ParseContent(content: string, owner: Option<string>) returns (r: Result<seq<Token>>)
    ensures r == Parse(content, owner)
  {
    var i, literal, done := 0, "", [];
    assert content[0..] == content;
    while i < |content|
      invariant 0 <= i <= |content|
      invariant ParseFrom(content[i..], literal, done, owner) == Parse(content, owner)
    {
      var c := content[i];
      ghost var s := content[i..];
      if Brace(c) && i + 1 < |content| && content[i + 1] == c {
        assert Escaped(s) && s[2..] == content[i + 2..];
        literal := literal + [c];
        i := i + 2;
      } else if c == '}' {
        return Err(Syntax);
      } else if c == '{' {
        assert !Escaped(s);
        var flushed := Flush(done, literal, owner);
        if flushed.Err? {
          return Err(flushed.error);
        }
        assert s[1..] == content[i + 1..];
        var found, name, next := ScanNameAt(content, i + 1);
        if !found {
          return Err(Syntax);
        }
        var token := TokenOf(name, owner);
        if token.Err? {
          return Err(token.error);
        }
        i, literal, done := next, "", flushed.value + [token.value];
      } else {
        assert s[1..] == content[i + 1..];
        literal := literal + [c];
        i := i + 1;
      }
    }
    r := Flush(done, literal, owner);
  }

  // ---- Printer ----

  /** Braces in a literal are doubled. */
  function Escape(s: string): string {
    if s == [] then "" else (if Brace(s[0]) then [s[0], s[0]] else [s[0]]) + Escape(s[1..])
  }

  function NameOf(t: Token): string
    requires !(t.Point? && t.segment.Literal?)
  {
    match t
    case Reference(name) => MACRO_PREFIX + name
    case Point(Message(_)) => "message"
    case Point(Media(_)) => "media"
    case Point(Tone(_)) => "tone_sequence"
  }

  predicate IsLiteral(t: Token) {
    t.Point? && t.segment.Literal?
  }

  function PrintToken(t: Token): string {
    if IsLiteral(t) then Escape(t.segment.text) else "{" + NameOf(t) + "}"
  }

  function Print(tokens: seq<Token>): string {
    if tokens == [] then "" else PrintToken(tokens[0]) + Print(tokens[1..])
  }

  /** A token the parser can produce for this owner. */
  predicate WellFormedToken(t: Token, owner: Option<string>) {
    match t
    case Point(Literal(text, o)) => o == owner && text != "" && Trimmed(text) && ByteLength(text) <= MAX_MESSAGE_BYTES
    case Point(segment) => segment.owner == owner
    case Reference(name) => name != "" && BraceFree(name)
  }

  /** The token there is not one of two literals in a row. */
  predicate Apart(tokens: seq<Token>, i: nat) {
    i + 1 < |tokens| ==> !(IsLiteral(tokens[i]) && IsLiteral(tokens[i + 1]))
  }

  ghost predicate WellFormed(tokens: seq<Token>, owner: Option<string>) {
    && (forall i :: 0 <= i < |tokens| ==> WellFormedToken(tokens[i], owner))
    && (forall i: nat :: Apart(tokens, i))
  }

  lemma {:induction false} EscapedTextParses(text: string, rest: string, literal: string, done: seq<Token>,
      owner: Option<string>)
    ensures ParseFrom(Escape(text) + rest, literal, done, owner) == ParseFrom(rest, literal + text, done, owner)
    decreases |text|
  {
    if text == [] {
      assert Escape(text) + rest == rest && literal + text == literal;
    } else {
      var c := text[0];
      var s := Escape(text) + rest;
      var head := if Brace(c) then [c, c] else [c];
      assert s == head + (Escape(text[1..]) + rest);
      assert s[|head|..] == Escape(text[1..]) + rest;
      assert (literal + [c]) + text[1..] == literal + text;
      EscapedTextParses(text[1..], rest, literal + [c], done, owner);
    }
  }

  lemma {:induction false} NameScans(name: string, rest: string)
    requires BraceFree(name)
    ensures ScanName(name + "}" + rest) == Some((name, rest))
  {
    var s := name + "}" + rest;
    if name == [] {
      assert s == "}" + rest && s[1..] == rest;
    } else {
      assert s[1..] == name[1..] + "}" + rest;
      assert [s[0]] + name[1..] == name;
      NameScans(name[1..], rest);
    }
  }

  lemma NameTokens(t: Token, owner: Option<string>)
    requires WellFormedToken(t, owner) && !IsLiteral(t)
    ensures BraceFree(NameOf(t)) && NameOf(t) != "" && TokenOf(NameOf(t), owner) == Ok(t)
  {
    if t.Reference? {
      var name := NameOf(t);
      assert name[|MACRO_PREFIX|..] == t.name;
      assert name[7] == '_';
      assert name != "message" && name != "media" && name != "tone_sequence";
      forall i | 0 <= i < |name| ensures !Brace(name[i]) {
        if i >= |MACRO_PREFIX| {
          assert name[i] == t.name[i - |MACRO_PREFIX|];
        }
      }
    }
  }

  /** One printed structural token parses to that token, after whatever literal precedes it is flushed. */
  lemma StructureParses(t: Token, rest: string, literal: string, done: seq<Token>, owner: Option<string>)
    requires WellFormedToken(t, owner) && !IsLiteral(t) && Flush(done, literal, owner).Ok?
    ensures ParseFrom(PrintToken(t) + rest, literal, done, owner) ==
            ParseFrom(rest, "", Flush(done, literal, owner).value + [t], owner)
  {
    NameTokens(t, owner);
    var name := NameOf(t);
    var s := PrintToken(t) + rest;
    assert s == "{" + (name + "}" + rest);
    assert s[1..] == name + "}" + rest;
    assert s[1] == name[0];
    NameScans(name, rest);
  }

  lemma LiteralFlushes(t: Token, done: seq<Token>, owner: Option<string>)
    requires IsLiteral(t) && WellFormedToken(t, owner)
    ensures Flush(done, t.segment.text, owner) == Ok(done + [t])
  {
    TrimTrims(t.segment.text);
  }

  /** A printed literal, with the structural token that must follow it unless it is last. */
  lemma LiteralParses(tokens: seq<Token>, done: seq<Token>, owner: Option<string>)
    requires WellFormed(tokens, owner) && tokens != [] && IsLiteral(tokens[0])
    ensures |tokens| == 1 ==> ParseFrom(Print(tokens), "", done, owner) == Ok(done + tokens)
    ensures |tokens| > 1 ==>
              ParseFrom(Print(tokens), "", done, owner) == ParseFrom(Print(tokens[2..]), "", done + tokens[..2], owner)
  {
    var t, rest := tokens[0], Print(tokens[1..]);
    var text := t.segment.text;
    EscapedTextParses(text, rest, "", done, owner);
    assert "" + text == text;
    LiteralFlushes(t, done, owner);
    if |tokens| == 1 {
      assert tokens == [t] && rest == "";
    } else {
      assert Apart(tokens, 0);
      assert tokens[1..][1..] == tokens[2..];
      assert rest == PrintToken(tokens[1]) + Print(tokens[2..]);
      StructureParses(tokens[1], Print(tokens[2..]), text, done, owner);
      assert done + [t] + [tokens[1]] == done + tokens[..2];
    }
  }

  lemma StructureFirst(tokens: seq<Token>, done: seq<Token>, owner: Option<string>)
    requires tokens != [] && WellFormedToken(tokens[0], owner) && !IsLiteral(tokens[0])
    ensures ParseFrom(Print(tokens), "", done, owner) == ParseFrom(Print(tokens[1..]), "", done + tokens[..1], owner)
  {
    assert Flush(done, "", owner) == Ok(done);
    StructureParses(tokens[0], Print(tokens[1..]), "", done, owner);
    assert tokens[..1] == [tokens[0]];
  }

  lemma Rejoin(done: seq<Token>, tokens: seq<Token>, k: nat)
    requires k <= |tokens|
    ensures done + tokens[..k] + tokens[k..] == done + tokens
  {
  }

  lemma WellFormedSuffix(tokens: seq<Token>, owner: Option<string>, k: nat)
    requires WellFormed(tokens, owner) && k <= |tokens|
    ensures WellFormed(tokens[k..], owner)
  {
    forall i: nat ensures Apart(tokens[k..], i) {
      assert Apart(tokens, k + i);
    }
  }

  lemma {:induction false} PrintParses(tokens: seq<Token>, done: seq<Token>, owner: Option<string>)
    requires WellFormed(tokens, owner)
    ensures ParseFrom(Print(tokens), "", done, owner) == Ok(done + tokens)
    decreases |tokens|
  {
    if tokens == [] {
      assert Print(tokens) == "" && done + tokens == done;
      assert Flush(done, "", owner) == Ok(done);
    } else if IsLiteral(tokens[0]) && |tokens| == 1 {
      LiteralParses(tokens, done, owner);
    } else {
      var k := if IsLiteral(tokens[0]) then 2 else 1;
      assert ParseFrom(Print(tokens), "", done, owner)
          == ParseFrom(Print(tokens[k..]), "", done + tokens[..k], owner) by {
        if IsLiteral(tokens[0]) {
          LiteralParses(tokens, done, owner);
        } else {
          StructureFirst(tokens, done, owner);
        }
      }
      WellFormedSuffix(tokens, owner, k);
      PrintParses(tokens[k..], done + tokens[..k], owner);
      Rejoin(done, tokens, k);
    }
  }

  /** Printing a well-formed token list and parsing it gives the list back. */
  lemma ParseInvertsPrint(tokens: seq<Token>, owner: Option<string>)
    requires WellFormed(tokens, owner)
    ensures Parse(Print(tokens), owner) == Ok(tokens)
  {
    PrintParses(tokens, [], owner);
    assert [] + tokens == tokens;
  }

  lemma {:induction false} ScannedNameIsBraceFree(s: string)
    ensures ScanName(s).Some? ==> BraceFree(ScanName(s).value.0)
  {
    if s != [] && !Brace(s[0]) {
      ScannedNameIsBraceFree(s[1..]);
    }
  }

  lemma TokenIsWellFormed(name: string, owner: Option<string>)
    requires BraceFree(name) && TokenOf(name, owner).Ok?
    ensures WellFormedToken(TokenOf(name, owner).value, owner) && !IsLiteral(TokenOf(name, owner).value)
  {
  }

  lemma FlushKeepsForm(done: seq<Token>, literal: string, owner: Option<string>)
    requires WellFormed(done, owner) && (done == [] || !IsLiteral(done[|done| - 1])) && Flush(done, literal, owner).Ok?
    ensures WellFormed(Flush(done, literal, owner).value, owner)
  {
    TrimTrims(literal);
    if Trim(literal) != "" {
      AppendKeepsForm(done, Point(Literal(Trim(literal), owner)), owner);
    }
  }

  lemma AppendKeepsForm(done: seq<Token>, t: Token, owner: Option<string>)
    requires WellFormed(done, owner) && WellFormedToken(t, owner)
    requires done == [] || !IsLiteral(done[|done| - 1]) || !IsLiteral(t)
    ensures WellFormed(done + [t], owner)
  {
    forall i: nat ensures Apart(done + [t], i) {
      assert Apart(done, i);
    }
  }

  lemma {:induction false} ParsedIsWellFormed(s: string, literal: string, done: seq<Token>, owner: Option<string>)
    requires WellFormed(done, owner) && (done == [] || !IsLiteral(done[|done| - 1]))
    requires ParseFrom(s, literal, done, owner).Ok?
    ensures WellFormed(ParseFrom(s, literal, done, owner).value, owner)
    decreases |s|
  {
    if s == [] {
      FlushKeepsForm(done, literal, owner);
    } else if Escaped(s) {
      ParsedIsWellFormed(s[2..], literal + [s[0]], done, owner);
    } else if s[0] == '{' {
      FlushKeepsForm(done, literal, owner);
      var flushed := Flush(done, literal, owner).value;
      var (name, rest) := ScanName(s[1..]).value;
      ScanNameShrinks(s[1..]);
      ScannedNameIsBraceFree(s[1..]);
      TokenIsWellFormed(name, owner);
      AppendKeepsForm(flushed, TokenOf(name, owner).value, owner);
      ParsedIsWellFormed(rest, "", flushed + [TokenOf(name, owner).value], owner);
    } else {
      ParsedIsWellFormed(s[1..], literal + [s[0]], done, owner);
    }
  }

  /**
    The well-formed lists are exactly what the parser produces, and printing a parse gives content
    with the same meaning.
   */
  lemma PrintOfParse(content: string, owner: Option<string>)
    requires Parse(content, owner).Ok?
    ensures WellFormed(Parse(content, owner).value, owner)
    ensures Parse(Print(Parse(content, owner).value), owner) == Parse(content, owner)
  {
    ParsedIsWellFormed(content, "", [], owner);
    ParseInvertsPrint(Parse(content, owner).value, owner);
  }
}
