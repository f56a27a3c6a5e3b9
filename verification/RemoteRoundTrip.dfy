/**
  The remote-base language and its commands are two views of one thing: a canonical text for
  every command in range, which parses back to it, and no text that parses out of range.
 */
module RemoteRoundTrip {
  import opened Options
  import opened Quotients
  import opened RemoteCommands

  predicate Selectable(n: nat) {
    1 <= n <= U32_MAX
  }

  /** The commands the language can express. */
  predicate InRange(c: RemoteCommand) {
    match c
    case Recall(n) => Selectable(n)
    case Frequency(hertz, _) => 0 < hertz <= U64_MAX && hertz % 10 == 0
    case Tone(_, tenths) => 500 <= tenths <= 3000
    case PowerPreset(n) => n <= 2
    case Mode(n) => 1 <= n <= 4
    case Step(hz) => hz in {-500, -100, -20, 20, 100, 500}
    case ScanPreset(_, n) => n <= 2
    case GetSetting(n) => Selectable(n)
    case SetSetting(n, v) =>
      Selectable(n) && v.magnitude <= U64_MAX && v.places <= 6 && I64_MIN <= Signed(v) <= I64_MAX
    case StartScan(n) => Selectable(n)
    case Memory(n) => Selectable(n)
    case Catalog(_, page) => Selectable(page)
    case ScanStatus(n) => Selectable(n)
    case Dwell(ms) => 1 <= ms <= U64_MAX
    case ResumeDelay(ms) => ms <= U64_MAX
    case Priority(member) => member.Some? ==> Selectable(member.value)
    case Invoke(n) => Selectable(n)
    case _ => true
  }

  function OffsetCode(o: Offset): string {
    match o
    case Minus => "1"
    case Simplex => "2"
    case Plus => "3"
  }

  function StepCode(hz: int): string {
    if hz == -20 then "711" else if hz == -100 then "714" else if hz == -500 then "717"
    else if hz == 20 then "713" else if hz == 100 then "716" else "719"
  }

  function PresetCode(up: bool, preset: nat): string {
    if up then (if preset == 0 then "723" else if preset == 1 then "726" else "729")
    else if preset == 0 then "721" else if preset == 1 then "724" else "727"
  }

  function FrequencyText(hertz: nat, offset: Offset): string {
    Dec(hertz / 1_000_000) + "*" + (Padded(hertz % 1_000_000 / 10, 5) + "*" + OffsetCode(offset))
  }

  function SettingText(n: nat, v: DecimalValue): string {
    Dec(n) + "*" + ((if v.negative then "1" else "0") + "*" + (Dec(v.magnitude) + "*" + Dec(v.places)))
  }

  function ToneText(tenths: nat): string {
    Dec(tenths / 10) + "*" + Dec(tenths % 10)
  }

  /** The canonical text of a command. */
  function Print(c: RemoteCommand): string {
    match c
    case Recall(n) => "0" + Dec(n)
    case Frequency(hertz, offset) => "1" + FrequencyText(hertz, offset)
    case Tone(encode, tenths) => (if encode then "3" else "2") + ToneText(tenths)
    case ToneEnabled(encode, enabled) =>
      if encode then (if enabled then "43" else "42") else if enabled then "41" else "40"
    case PowerPreset(n) => if n == 0 then "44" else if n == 1 then "45" else "46"
    case Status(long) => if long then "51" else "52"
    case Mode(n) => if n == 1 then "61" else if n == 3 then "62" else if n == 4 then "63" else "64"
    case Step(hz) => StepCode(hz)
    case ScanPreset(up, preset) => PresetCode(up, preset)
    case Tune => "79"
    case GetSetting(n) => "90" + Dec(n)
    case SetSetting(n, v) => "91" + SettingText(n, v)
    case StartScan(n) => "92" + Dec(n)
    case PauseScan => "93"
    case ResumeScan => "94"
    case StopScan => "95"
    case ScanDirection(up) => if up then "961" else "960"
    case Skip => "97"
    case Memory(n) => "98" + Dec(n)
    case Catalog(kind, page) =>
      (match kind case Capabilities => "990" case Memories => "991" case ScanLists => "992") + Dec(page)
    case ScanStatus(n) => "993" + Dec(n)
    case Inhibit(enabled) => if enabled then "9941" else "9940"
    case Dwell(ms) => "995" + Dec(ms)
    case ResumeDelay(ms) => "996" + Dec(ms)
    case Priority(member) => "997" + Dec(if member.Some? then member.value else 0)
    case CurrentStatus => "998"
    case Invoke(n) => "999" + Dec(n)
  }

  // ---- No fixed code or shorter family shadows a longer one ----

  /** How every fixed code begins. */
  predicate FixedStart(text: string) {
    && |text| >= 2
    && (|| '4' <= text[0] <= '7'
        || (text[0] == '9' && '3' <= text[1] <= '7')
        || (|text| >= 3 && text[0] == '9' && text[1] == '9' && (text[2] == '4' || text[2] == '8')))
  }

  lemma FixedCodesStart(text: string)
    requires FixedCode(text).Some?
    ensures FixedStart(text)
  {
  }

  lemma Family3Start(prefix: string, rest: string)
    requires Family3(prefix, rest).Some?
    ensures |prefix| == 3 && prefix[0] == '9' && prefix[1] == '9' && prefix[2] != '4' && prefix[2] != '8'
  {
  }

  lemma Family2Start(prefix: string, rest: string)
    requires Family2(prefix, rest).Some?
    ensures |prefix| == 2 && prefix[0] == '9'
    ensures prefix[1] == '0' || prefix[1] == '1' || prefix[1] == '2' || prefix[1] == '8'
  {
  }

  lemma ParsesAs3(prefix: string, rest: string)
    requires |prefix| == 3 && Family3(prefix, rest).Some?
    ensures ParseRemoteCommand(prefix + rest) == Family3(prefix, rest).value
  {
    var text := prefix + rest;
    Family3Start(prefix, rest);
    assert text[..3] == prefix && text[3..] == rest;
    if FixedCode(text).Some? {
      FixedCodesStart(text);
      assert false;
    }
  }

  lemma ParsesAs2(prefix: string, rest: string)
    requires |prefix| == 2 && Family2(prefix, rest).Some?
    ensures ParseRemoteCommand(prefix + rest) == Family2(prefix, rest).value
  {
    var text := prefix + rest;
    Family2Start(prefix, rest);
    assert text[..2] == prefix && text[2..] == rest;
    if FixedCode(text).Some? {
      FixedCodesStart(text);
      assert false;
    }
    if |text| >= 3 && Family3(text[..3], text[3..]).Some? {
      Family3Start(text[..3], text[3..]);
      assert false;
    }
  }

  lemma ParsesAs1(prefix: char, rest: string)
    requires '0' <= prefix <= '3'
    ensures ParseRemoteCommand([prefix] + rest) == Family1(prefix, rest)
  {
    var text := [prefix] + rest;
    assert text[1..] == rest;
    if FixedCode(text).Some? {
      FixedCodesStart(text);
      assert false;
    }
    if |text| >= 3 && Family3(text[..3], text[3..]).Some? {
      Family3Start(text[..3], text[3..]);
      assert false;
    }
    if |text| >= 2 && Family2(text[..2], text[2..]).Some? {
      Family2Start(text[..2], text[2..]);
      assert false;
    }
  }

  // ---- Field by field ----

  lemma Parts2(a: string, b: string)
    requires a != "" && b != "" && '*' !in a && '*' !in b
    ensures Parts(a + "*" + b, 2) == Some([a, b])
  {
    SplitField(b);
    SplitFirst(a, b);
    assert Split(a + "*" + b) == [a, b];
  }

  lemma Parts3(a: string, b: string, c: string)
    requires a != "" && b != "" && c != "" && '*' !in a && '*' !in b && '*' !in c
    ensures Parts(a + "*" + (b + "*" + c), 3) == Some([a, b, c])
  {
    SplitField(c);
    SplitFirst(b, c);
    SplitFirst(a, b + "*" + c);
    assert Split(a + "*" + (b + "*" + c)) == [a, b, c];
  }

  lemma Parts4(a: string, b: string, c: string, d: string)
    requires a != "" && b != "" && c != "" && d != "" && '*' !in a && '*' !in b && '*' !in c && '*' !in d
    ensures Parts(a + "*" + (b + "*" + (c + "*" + d)), 4) == Some([a, b, c, d])
  {
    SplitField(d);
    SplitFirst(c, d);
    SplitFirst(b, c + "*" + d);
    SplitFirst(a, b + "*" + (c + "*" + d));
    assert Split(a + "*" + (b + "*" + (c + "*" + d))) == [a, b, c, d];
  }

  lemma DecField(n: nat)
    ensures Dec(n) != "" && '*' !in Dec(n) && Digits(Dec(n)) && Value(Dec(n)) == n
  {
    DecValue(n);
    DigitsHaveNoStar(Dec(n));
  }

  lemma HertzOfFields(whole: string, fraction: string, mega: nat, part: nat)
    requires Number(whole, U64_MAX) == Some(mega) && Number(fraction, U64_MAX) == Some(part) && |fraction| == 5
    requires mega * 1_000_000 + part * 10 <= U64_MAX
    ensures Hertz(whole, fraction) == Some(mega * 1_000_000 + part * 10)
  {
    assert Pow10(6 - |fraction|) == 10 * Pow10(0);
  }

  lemma HertzSplit(hertz: nat)
    requires hertz % 10 == 0
    ensures hertz / 1_000_000 * 1_000_000 + hertz % 1_000_000 / 10 * 10 == hertz
    ensures hertz % 1_000_000 / 10 < 100_000
  {
    var mega, rest, tens := hertz / 1_000_000, hertz % 1_000_000, hertz / 10;
    assert rest == 10 * (tens - 100_000 * mega);
  }

  lemma PaddedNumber(part: nat)
    requires part < 100_000
    ensures |Padded(part, 5)| == 5 && Number(Padded(part, 5), U64_MAX) == Some(part)
  {
    Pow10Small(5);
    PaddedValue(part, 5);
    QuotientIs(part, Pow10(5), 0, part);
  }

  lemma HertzOfText(mega: nat, part: nat)
    requires part < 100_000 && mega * 1_000_000 + part * 10 <= U64_MAX
    ensures Hertz(Dec(mega), Padded(part, 5)) == Some(mega * 1_000_000 + part * 10)
  {
    NumberParses(mega, U64_MAX);
    PaddedNumber(part);
    HertzOfFields(Dec(mega), Padded(part, 5), mega, part);
  }

  lemma FrequencyParses(hertz: nat, offset: Offset)
    requires InRange(Frequency(hertz, offset))
    ensures Tuned(FrequencyText(hertz, offset)) == Some(Frequency(hertz, offset))
  {
    var mega, part := hertz / 1_000_000, hertz % 1_000_000 / 10;
    HertzSplit(hertz);
    HertzOfText(mega, part);
    DecField(mega);
    PaddedValue(part, 5);
    DigitsHaveNoStar(Padded(part, 5));
    Parts3(Dec(mega), Padded(part, 5), OffsetCode(offset));
  }

  lemma ToneParses(encode: bool, tenths: nat)
    requires InRange(Tone(encode, tenths))
    ensures Toned(encode, ToneText(tenths)) == Some(Tone(encode, tenths))
  {
    DecField(tenths / 10);
    DecField(tenths % 10);
    Parts2(Dec(tenths / 10), Dec(tenths % 10));
  }

  lemma FitsAsEntered(v: DecimalValue)
    requires v.magnitude <= U64_MAX
    ensures AtDecimalPlaces(v, v.places).Some? <==> v.places <= 6 && I64_MIN <= Signed(v) <= I64_MAX
  {
    ConversionIsExact(v, v.places, Signed(v));
    if AtDecimalPlaces(v, v.places).Some? {
      var n := AtDecimalPlaces(v, v.places).value;
      ConversionIsExact(v, v.places, n);
      CancelFactor(n, Signed(v), Pow10(v.places));
    }
  }

  lemma SettingParses(n: nat, v: DecimalValue)
    requires InRange(SetSetting(n, v))
    ensures Setting(SettingText(n, v)) == Some(SetSetting(n, v))
  {
    var sign := if v.negative then "1" else "0";
    DecField(n);
    DecField(v.magnitude);
    DecField(v.places);
    Parts4(Dec(n), sign, Dec(v.magnitude), Dec(v.places));
    FitsAsEntered(v);
  }

  lemma NumberParses(n: nat, max: nat)
    requires n <= max
    ensures Number(Dec(n), max) == Some(n)
    ensures Selectable(n) ==> Selector(Dec(n)) == Some(n)
  {
    DecField(n);
  }

  // ---- Round trip ----

  predicate Coded(c: RemoteCommand) {
    || c.ToneEnabled? || c.PowerPreset? || c.Status? || c.Mode? || c.Step? || c.ScanPreset? || c.Tune? || c.PauseScan?
    || c.ResumeScan? || c.StopScan? || c.ScanDirection? || c.Skip? || c.Inhibit? || c.CurrentStatus?
  }

  lemma CodedRoundTrip(c: RemoteCommand)
    requires InRange(c) && Coded(c)
    ensures FixedCode(Print(c)) == Some(c)
  {
  }

  lemma ThreeDigitRoundTrip(c: RemoteCommand)
    requires InRange(c)
    requires c.Catalog? || c.ScanStatus? || c.Dwell? || c.ResumeDelay? || c.Priority? || c.Invoke?
    ensures ParseRemoteCommand(Print(c)) == Some(c)
  {
    match c
    case Catalog(kind, page) =>
      NumberParses(page, U32_MAX);
      ParsesAs3(match kind case Capabilities => "990" case Memories => "991" case ScanLists => "992", Dec(page));
    case ScanStatus(n) =>
      NumberParses(n, U32_MAX);
      ParsesAs3("993", Dec(n));
    case Dwell(ms) =>
      NumberParses(ms, U64_MAX);
      ParsesAs3("995", Dec(ms));
    case ResumeDelay(ms) =>
      NumberParses(ms, U64_MAX);
      ParsesAs3("996", Dec(ms));
    case Priority(member) =>
      var n := if member.Some? then member.value else 0;
      NumberParses(n, U32_MAX);
      ParsesAs3("997", Dec(n));
    case Invoke(n) =>
      NumberParses(n, U32_MAX);
      ParsesAs3("999", Dec(n));
  }

  lemma TwoDigitRoundTrip(c: RemoteCommand)
    requires InRange(c) && (c.GetSetting? || c.SetSetting? || c.StartScan? || c.Memory?)
    ensures ParseRemoteCommand(Print(c)) == Some(c)
  {
    NumberParses(c.selector, U32_MAX);
    match c
    case GetSetting(n) => ParsesAs2("90", Dec(n));
    case SetSetting(n, v) =>
      SettingParses(n, v);
      ParsesAs2("91", SettingText(n, v));
    case StartScan(n) => ParsesAs2("92", Dec(n));
    case Memory(n) => ParsesAs2("98", Dec(n));
  }

  lemma OneDigitRoundTrip(c: RemoteCommand)
    requires InRange(c) && (c.Recall? || c.Frequency? || c.Tone?)
    ensures ParseRemoteCommand(Print(c)) == Some(c)
  {
    match c
    case Recall(n) =>
      NumberParses(n, U32_MAX);
      ParsesAs1('0', Dec(n));
    case Frequency(hertz, offset) =>
      FrequencyParses(hertz, offset);
      ParsesAs1('1', FrequencyText(hertz, offset));
    case Tone(encode, tenths) =>
      ToneParses(encode, tenths);
      ParsesAs1(if encode then '3' else '2', ToneText(tenths));
  }

  /** Printing a command in range and parsing the text gives the command back. */
  lemma ParseInvertsPrint(c: RemoteCommand)
    requires InRange(c)
    ensures ParseRemoteCommand(Print(c)) == Some(c)
  {
    if Coded(c) {
      CodedRoundTrip(c);
    } else if c.Recall? || c.Frequency? || c.Tone? {
      OneDigitRoundTrip(c);
    } else if c.GetSetting? || c.SetSetting? || c.StartScan? || c.Memory? {
      TwoDigitRoundTrip(c);
    } else {
      ThreeDigitRoundTrip(c);
    }
  }

  // ---- And nothing else parses ----

  lemma HertzInTens(whole: string, fraction: string)
    requires Hertz(whole, fraction).Some?
    ensures Hertz(whole, fraction).value <= U64_MAX && Hertz(whole, fraction).value % 10 == 0
  {
    var part, k := Value(fraction), 6 - |fraction|;
    assert Pow10(k) == 10 * Pow10(k - 1);
    assert part * Pow10(k) == 10 * (part * Pow10(k - 1));
  }

  lemma FixedInRange(text: string)
    requires FixedCode(text).Some?
    ensures InRange(FixedCode(text).value)
  {
  }

  lemma FamilyInRange(text: string)
    requires Family(text).Some?
    ensures InRange(Family(text).value)
  {
    if |text| >= 3 && Family3(text[..3], text[3..]).Some? {
      assert InRange(Family3(text[..3], text[3..]).value.value);
    } else if |text| >= 2 && Family2(text[..2], text[2..]).Some? {
      if text[..2] == "91" {
        var f := Parts(text[2..], 4).value;
        FitsAsEntered(DecimalValue(f[1] == "1", Value(f[2]), Value(f[3])));
      }
    } else if text[0] == '1' {
      var f := Parts(text[1..], 3).value;
      HertzInTens(f[0], f[1]);
    }
  }

  /** The range is the language's image: a command is in range exactly when some text parses to it. */
  lemma RangeIsImage(c: RemoteCommand)
    ensures InRange(c) <==> exists text :: ParseRemoteCommand(text) == Some(c)
  {
    if InRange(c) {
      ParseInvertsPrint(c);
    }
    forall text | ParseRemoteCommand(text) == Some(c)
      ensures InRange(c)
    {
      if FixedCode(text).Some? {
        FixedInRange(text);
      } else {
        FamilyInRange(text);
      }
    }
  }
}
