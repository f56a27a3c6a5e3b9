/**
  The remote-base payload language: the text that follows the remote prefix, the typed
  command it means, and the flat record handed to the radio owner.
 */
module RemoteCommands {
  import opened Options
  import opened Quotients

  const U32_MAX: nat := 0xFFFF_FFFF
  const U64_MAX: nat := 0xFFFF_FFFF_FFFF_FFFF
  const I64_MAX: int := 0x7FFF_FFFF_FFFF_FFFF
  const I64_MIN: int := -0x8000_0000_0000_0000
  const I128_MAX: int := 0x7FFF_FFFF_FFFF_FFFF_FFFF_FFFF_FFFF_FFFF

  datatype Offset = Minus | Simplex | Plus

  datatype CatalogKind = Capabilities | Memories | ScanLists

  /** Exact signed decimal input; an explicit negative zero keeps its sign. */
  datatype DecimalValue = DecimalValue(negative: bool, magnitude: nat, places: nat)

  datatype RemoteCommand =
    | Recall(selector: nat)
    | Frequency(hertz: nat, offset: Offset)
    | Tone(encode: bool, tenthsHz: nat)
    | ToneEnabled(encode: bool, enabled: bool)
    | PowerPreset(preset: nat)
    | Status(long: bool)
    | Mode(mode: nat)
    | Step(hz: int)
    | ScanPreset(up: bool, preset: nat)
    | Tune
    | GetSetting(selector: nat)
    | SetSetting(selector: nat, value: DecimalValue)
    | StartScan(selector: nat)
    | PauseScan
    | ResumeScan
    | StopScan
    | ScanDirection(up: bool)
    | Skip
    | Memory(selector: nat)
    | Catalog(kind: CatalogKind, page: nat)
    | ScanStatus(selector: nat)
    | Inhibit(enabled: bool)
    | Dwell(milliseconds: nat)
    | ResumeDelay(milliseconds: nat)
    | Priority(member: Option<nat>)
    | CurrentStatus
    | Invoke(selector: nat)

  // ---- Exact decimals ----

  function Pow10(n: nat): (p: nat)
    ensures p > 0
  {
    if n == 0 then 1 else 10 * Pow10(n - 1)
  }

  function Signed(v: DecimalValue): int {
    if v.negative then -(v.magnitude as int) else v.magnitude
  }

  /** Rust's remainder and quotient truncate toward zero. */
  function Rem(a: int, b: nat): int
    requires b > 0
  {
    if a >= 0 then a % b else -((-a) % b)
  }

  function Quot(a: int, b: nat): int
    requires b > 0
  {
    if a >= 0 then a / b else -((-a) / b)
  }

  function CheckedI128(n: int): Option<int> {
    if -I128_MAX - 1 <= n <= I128_MAX then Some(n) else None
  }

  function ToI64(n: int): Option<int> {
    if I64_MIN <= n <= I64_MAX then Some(n) else None
  }

  /** Convert to a control's own number of decimal places. */
  function AtDecimalPlaces(v: DecimalValue, places: nat): Option<int> {
    if v.places > 6 || places > 6 then None
    else if places >= v.places then
      match CheckedI128(Signed(v) * Pow10(places - v.places))
      case None => None
      case Some(n) => ToI64(n)
    else
      var divisor := Pow10(v.places - places);
      if Rem(Signed(v), divisor) != 0 then None else ToI64(Quot(Signed(v), divisor))
  }

  lemma {:induction false} Pow10Adds(a: nat, b: nat)
    ensures Pow10(a + b) == Pow10(a) * Pow10(b)
  {
    if a > 0 {
      Pow10Adds(a - 1, b);
    }
  }

  /** The powers in use, one by one. */
  lemma Pow10Small(n: nat)
    requires n <= 6
    ensures Pow10(n) <= 1_000_000
    ensures n == 5 ==> Pow10(n) == 100_000
  {
    assert Pow10(0) == 1;
    assert Pow10(1) == 10 * Pow10(0) == 10;
    assert Pow10(2) == 10 * Pow10(1) == 100;
    assert Pow10(3) == 10 * Pow10(2) == 1_000;
    assert Pow10(4) == 10 * Pow10(3) == 10_000;
    assert Pow10(5) == 10 * Pow10(4) == 100_000;
    assert Pow10(6) == 10 * Pow10(5) == 1_000_000;
  }

  /** Truncating division by a positive number is exact precisely when a whole quotient exists. */
  lemma ExactQuotient(a: int, b: nat, n: int)
    requires b > 0
    ensures Rem(a, b) == 0 && Quot(a, b) == n <==> n * b == a
  {
    if a >= 0 {
      ExactNatQuotient(a, b, n);
    } else {
      ExactNatQuotient(-a, b, -n);
      assert (-n) * b == -(n * b);
    }
  }

  lemma ExactNatQuotient(a: nat, b: nat, n: int)
    requires b > 0
    ensures a % b == 0 && a / b == n <==> n * b == a
  {
    QuotientBounds(a, b);
    if n * b == a {
      QuotientIs(a, b, n, 0);
    }
    if a % b == 0 && a / b == n {
      assert a == (a / b) * b + a % b;
    }
  }

  /**
    Conversion neither rounds nor overflows: it answers n exactly when both precisions are within
    six places, n fits 64 bits, and n units of the target precision equal the entered value.
   */
  lemma ConversionIsExact(v: DecimalValue, places: nat, n: int)
    requires v.magnitude <= U64_MAX
    ensures AtDecimalPlaces(v, places) == Some(n) <==>
            && v.places <= 6 && places <= 6 && I64_MIN <= n <= I64_MAX
            && n * Pow10(v.places) == Signed(v) * Pow10(places)
  {
    if v.places <= 6 && places <= 6 {
      if places >= v.places {
        ScaledUp(v, places, n);
      } else {
        ScaledDown(v, places, n);
      }
    }
  }

  lemma CommonFactor(a: int, b: int, k: nat, p: nat)
    requires p > 0
    ensures a * (k * p) == b * p <==> a * k == b
  {
    assert a * (k * p) == (a * k) * p;
    if (a * k) * p == b * p {
      CancelFactor(a * k, b, p);
    }
  }

  lemma ScaledUp(v: DecimalValue, places: nat, n: int)
    requires v.magnitude <= U64_MAX && v.places <= places <= 6
    ensures AtDecimalPlaces(v, places) == Some(n) <==>
            I64_MIN <= n <= I64_MAX && n * Pow10(v.places) == Signed(v) * Pow10(places)
  {
    var k := Pow10(places - v.places);
    Pow10Small(places - v.places);
    Pow10Adds(places - v.places, v.places);
    ScaleBound(Signed(v), k);
    CommonFactor(Signed(v), n, k, Pow10(v.places));
  }

  lemma ScaleBound(a: int, k: nat)
    requires -(U64_MAX as int) <= a <= U64_MAX && k <= 1_000_000
    ensures CheckedI128(a * k) == Some(a * k)
  {
    if a >= 0 {
      ProductAtMost(a, k, U64_MAX, 1_000_000);
    } else {
      ProductAtMost(-a, k, U64_MAX, 1_000_000);
      assert a * k == -((-a) * k);
    }
  }

  lemma ScaledDown(v: DecimalValue, places: nat, n: int)
    requires places < v.places <= 6
    ensures AtDecimalPlaces(v, places) == Some(n) <==>
            I64_MIN <= n <= I64_MAX && n * Pow10(v.places) == Signed(v) * Pow10(places)
  {
    var k := Pow10(v.places - places);
    Pow10Adds(v.places - places, places);
    ExactQuotient(Signed(v), k, n);
    CommonFactor(n, Signed(v), k, Pow10(places));
  }

  // ---- Numbers and fields ----

  predicate Digit(c: char) {
    '0' <= c <= '9'
  }

  predicate Digits(text: string) {
    forall i :: 0 <= i < |text| ==> Digit(text[i])
  }

  function Value(text: string): nat
    requires Digits(text)
  {
    if text == "" then 0 else 10 * Value(text[..|text| - 1]) + (text[|text| - 1] - '0') as nat
  }

  /** An unsigned decimal that fits its type; leading zeros are allowed, signs are not. */
  function Number(text: string, max: nat): Option<nat> {
    if text == "" || !Digits(text) || Value(text) > max then None else Some(Value(text))
  }

  function Selector(text: string): Option<nat> {
    match Number(text, U32_MAX)
    case None => None
    case Some(n) => if n == 0 then None else Some(n)
  }

  function Split(text: string): (fields: seq<string>)
    ensures |fields| >= 1
  {
    if text == "" then [""]
    else
      var rest := Split(text[1..]);
      if text[0] == '*' then [""] + rest else [[text[0]] + rest[0]] + rest[1..]
  }

  /** Exactly n nonempty fields between stars. */
  function Parts(text: string, n: nat): Option<seq<string>> {
    var fields := Split(text);
    if |fields| == n && (forall i :: 0 <= i < |fields| ==> fields[i] != "") then Some(fields) else None
  }

  function DigitChar(d: nat): char
    requires d < 10
  {
    '0' + d as char
  }

  /** The shortest decimal numeral. */
  function Dec(n: nat): string {
    if n < 10 then [DigitChar(n)] else Dec(n / 10) + [DigitChar(n % 10)]
  }

  /** The numeral of n mod 10^width in exactly width digits. */
  function Padded(n: nat, width: nat): string {
    if width == 0 then "" else Padded(n / 10, width - 1) + [DigitChar(n % 10)]
  }

  lemma DigitsAppend(text: string, c: char)
    requires Digits(text) && Digit(c)
    ensures Digits(text + [c]) && Value(text + [c]) == 10 * Value(text) + (c - '0') as nat
  {
    assert (text + [c])[..|text|] == text;
  }

  lemma {:induction false} DecValue(n: nat)
    ensures Dec(n) != "" && Digits(Dec(n)) && Value(Dec(n)) == n
  {
    if n < 10 {
      assert Dec(n)[..0] == "";
    } else {
      DecValue(n / 10);
      DigitsAppend(Dec(n / 10), DigitChar(n % 10));
    }
  }

  lemma {:induction false} PaddedValue(n: nat, width: nat)
    ensures |Padded(n, width)| == width && Digits(Padded(n, width)) && Value(Padded(n, width)) == n % Pow10(width)
  {
    if width > 0 {
      PaddedValue(n / 10, width - 1);
      DigitsAppend(Padded(n / 10, width - 1), DigitChar(n % 10));
      ModuloByTens(n, Pow10(width - 1));
    }
  }

  lemma ModuloByTens(n: nat, p: nat)
    requires p > 0
    ensures 10 * (n / 10 % p) + n % 10 == n % (10 * p)
  {
    var q, r := n / 10 / p, n / 10 % p;
    assert n / 10 == q * p + r;
    assert n == 10 * (n / 10) + n % 10;
    var m := 10 * r + n % 10;
    assert n == q * (10 * p) + m by {
      assert 10 * (q * p) == q * (10 * p);
    }
    QuotientIs(n, 10 * p, q, m);
  }

  lemma {:induction false} SplitField(field: string)
    requires '*' !in field
    ensures Split(field) == [field]
  {
    if field != "" {
      assert field == [field[0]] + field[1..];
      SplitField(field[1..]);
    }
  }

  lemma {:induction false} SplitFirst(field: string, rest: string)
    requires '*' !in field
    ensures Split(field + "*" + rest) == [field] + Split(rest)
  {
    var text := field + "*" + rest;
    if field == "" {
      assert text[1..] == rest;
    } else {
      assert text[1..] == field[1..] + "*" + rest;
      SplitFirst(field[1..], rest);
      assert field == [field[0]] + field[1..];
    }
  }

  lemma DigitsHaveNoStar(text: string)
    requires Digits(text)
    ensures '*' !in text
  {
  }

  // ---- The language ----

  function FixedCode(text: string): Option<RemoteCommand> {
    match text
    case "40" => Some(ToneEnabled(false, false))
    case "41" => Some(ToneEnabled(false, true))
    case "42" => Some(ToneEnabled(true, false))
    case "43" => Some(ToneEnabled(true, true))
    case "44" => Some(PowerPreset(0))
    case "45" => Some(PowerPreset(1))
    case "46" => Some(PowerPreset(2))
    case "51" => Some(Status(true))
    case "52" => Some(Status(false))
    case "61" => Some(Mode(1))
    case "62" => Some(Mode(3))
    case "63" => Some(Mode(4))
    case "64" => Some(Mode(2))
    case "711" => Some(Step(-20))
    case "714" => Some(Step(-100))
    case "717" => Some(Step(-500))
    case "713" => Some(Step(20))
    case "716" => Some(Step(100))
    case "719" => Some(Step(500))
    case "721" => Some(ScanPreset(false, 0))
    case "724" => Some(ScanPreset(false, 1))
    case "727" => Some(ScanPreset(false, 2))
    case "723" => Some(ScanPreset(true, 0))
    case "726" => Some(ScanPreset(true, 1))
    case "729" => Some(ScanPreset(true, 2))
    case "79" => Some(Tune)
    case "93" => Some(PauseScan)
    case "94" => Some(ResumeScan)
    case "95" => Some(StopScan)
    case "960" => Some(ScanDirection(false))
    case "961" => Some(ScanDirection(true))
    case "97" => Some(Skip)
    case "9940" => Some(Inhibit(false))
    case "9941" => Some(Inhibit(true))
    case "998" => Some(CurrentStatus)
    case _ => None
  }

  function Over(n: Option<nat>, make: nat -> RemoteCommand): Option<RemoteCommand> {
    match n
    case None => None
    case Some(value) => Some(make(value))
  }

  /** Some when the three-digit family exists; the inner value is its answer. */
  function Family3(prefix: string, rest: string): Option<Option<RemoteCommand>> {
    match prefix
    case "990" => Some(Over(Selector(rest), (n: nat) => Catalog(Capabilities, n)))
    case "991" => Some(Over(Selector(rest), (n: nat) => Catalog(Memories, n)))
    case "992" => Some(Over(Selector(rest), (n: nat) => Catalog(ScanLists, n)))
    case "993" => Some(Over(Selector(rest), (n: nat) => ScanStatus(n)))
    case "995" => Some(if Number(rest, U64_MAX) == Some(0) then None
        else Over(Number(rest, U64_MAX), (n: nat) => Dwell(n)))
    case "996" => Some(Over(Number(rest, U64_MAX), (n: nat) => ResumeDelay(n)))
    case "997" => Some(Over(Number(rest, U32_MAX), (n: nat) => Priority(if n == 0 then None else Some(n))))
    case "999" => Some(Over(Selector(rest), (n: nat) => Invoke(n)))
    case _ => None
  }

  function Setting(rest: string): Option<RemoteCommand> {
    match Parts(rest, 4)
    case None => None
    case Some(f) =>
      if f[1] != "0" && f[1] != "1" then None
      else
        match Number(f[2], U64_MAX)
        case None => None
        case Some(magnitude) =>
          match Number(f[3], U32_MAX)
          case None => None
          case Some(places) =>
            var value := DecimalValue(f[1] == "1", magnitude, places);
            if AtDecimalPlaces(value, places).None? then None
                else Over(Selector(f[0]), (n: nat) => SetSetting(n, value))
  }

  function Family2(prefix: string, rest: string): Option<Option<RemoteCommand>> {
    match prefix
    case "90" => Some(Over(Selector(rest), (n: nat) => GetSetting(n)))
    case "91" => Some(Setting(rest))
    case "92" => Some(Over(Selector(rest), (n: nat) => StartScan(n)))
    case "98" => Some(Over(Selector(rest), (n: nat) => Memory(n)))
    case _ => None
  }

  function OffsetOf(text: string): Option<Offset> {
    match text
    case "1" => Some(Minus)
    case "2" => Some(Simplex)
    case "3" => Some(Plus)
    case _ => None
  }

  function Bounded(n: nat, max: nat): Option<nat> {
    if n <= max then Some(n) else None
  }

  /** Whole megahertz and up to five decimals, in checked 64-bit arithmetic. */
  function Hertz(whole: string, fraction: string): Option<nat> {
    if !(1 <= |fraction| <= 5) then None
    else
      match Number(whole, U64_MAX)
      case None => None
      case Some(mega) =>
        match Bounded(mega * 1_000_000, U64_MAX)
        case None => None
        case Some(base) =>
          match Number(fraction, U64_MAX)
          case None => None
          case Some(part) =>
            match Bounded(part * Pow10(6 - |fraction|), U64_MAX)
            case None => None
            case Some(extra) => Bounded(base + extra, U64_MAX)
  }

  function Tuned(rest: string): Option<RemoteCommand> {
    match Parts(rest, 3)
    case None => None
    case Some(f) =>
      match Hertz(f[0], f[1])
      case None => None
      case Some(hertz) =>
        if hertz == 0 || OffsetOf(f[2]).None? then None else Some(Frequency(hertz, OffsetOf(f[2]).value))
  }

  /** Tenths of a hertz in checked 32-bit arithmetic. */
  function Tenths(whole: string, tenth: string): Option<nat> {
    if |tenth| != 1 then None
    else
      match Number(whole, U32_MAX)
      case None => None
      case Some(hz) =>
        match Bounded(hz * 10, U32_MAX)
        case None => None
        case Some(base) =>
          match Number(tenth, U32_MAX)
          case None => None
          case Some(extra) => Bounded(base + extra, U32_MAX)
  }

  function Toned(encode: bool, rest: string): Option<RemoteCommand> {
    match Parts(rest, 2)
    case None => None
    case Some(f) =>
      match Tenths(f[0], f[1])
      case None => None
      case Some(tone) => if 500 <= tone <= 3000 then Some(Tone(encode, tone)) else None
  }

  function Family1(prefix: char, rest: string): Option<RemoteCommand> {
    match prefix
    case '0' => Over(Selector(rest), (n: nat) => Recall(n))
    case '1' => Tuned(rest)
    case '2' => Toned(false, rest)
    case '3' => Toned(true, rest)
    case _ => None
  }

  function Family(text: string): Option<RemoteCommand> {
    if |text| >= 3 && Family3(text[..3], text[3..]).Some? then Family3(text[..3], text[3..]).value
    else if |text| >= 2 && Family2(text[..2], text[2..]).Some? then Family2(text[..2], text[2..]).value
    else if |text| >= 1 then Family1(text[0], text[1..])
    else None
  }

  function ParseRemoteCommand(text: string): Option<RemoteCommand> {
    match FixedCode(text)
    case Some(c) => Some(c)
    case None => Family(text)
  }

  const ACCEPTED_CODE := "79"

  lemma AcceptedCodeParses()
    ensures ParseRemoteCommand(ACCEPTED_CODE) == Some(Tune)
  {
  }
}
