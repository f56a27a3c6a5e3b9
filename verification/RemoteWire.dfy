/** The flat record a remote command becomes, and how much of the command it keeps. */
module RemoteWire {
  import opened Options
  import opened RemoteCommands
  import opened RemoteRoundTrip

  datatype Operation = Operation(
    structSize: nat,
    abiVersion: nat,
    operation: nat,
    selector: nat,
    signedValue: int,
    magnitude: nat,
    decimalPlaces: nat,
    flags: nat)

  /** The commands the Rust type can hold. */
  predicate Typed(c: RemoteCommand) {
    match c
    case Frequency(hertz, _) => hertz <= U64_MAX
    case Tone(_, tenths) => tenths <= U32_MAX
    case PowerPreset(n) => n <= 255
    case Mode(n) => n <= U32_MAX
    case Step(hz) => I64_MIN <= hz <= I64_MAX
    case ScanPreset(_, n) => n <= 255
    case SetSetting(n, v) => n <= U32_MAX && v.magnitude <= U64_MAX && v.places <= U32_MAX
    case Recall(n) => n <= U32_MAX
    case GetSetting(n) => n <= U32_MAX
    case StartScan(n) => n <= U32_MAX
    case Memory(n) => n <= U32_MAX
    case Catalog(_, page) => page <= U32_MAX
    case ScanStatus(n) => n <= U32_MAX
    case Dwell(ms) => ms <= U64_MAX
    case ResumeDelay(ms) => ms <= U64_MAX
    case Priority(member) => member.Some? ==> member.value <= U32_MAX
    case Invoke(n) => n <= U32_MAX
    case _ => true
  }

  const BASE := Operation(40, 1, 0, 0, 0, 0, 0, 0)

  function Bit(b: bool): nat {
    if b then 1 else 0
  }

  function Wire(c: RemoteCommand): Operation {
    match c
    case Recall(n) => BASE.(operation := 1, selector := n)
    case Frequency(hertz, offset) =>
      BASE.(operation := 2, magnitude := hertz, flags := match offset case Minus => 1 case Simplex => 2 case Plus => 3)
    case Tone(encode, tenths) => BASE.(operation := 3, magnitude := tenths, flags := Bit(encode))
    case ToneEnabled(encode, enabled) => BASE.(operation := 4, flags := Bit(encode) + 2 * Bit(enabled))
    case PowerPreset(n) => BASE.(operation := 5, selector := n)
    case Status(long) => BASE.(operation := 6, flags := Bit(long))
    case Mode(n) => BASE.(operation := 7, selector := n)
    case Step(hz) => BASE.(operation := 8, signedValue := hz)
    case ScanPreset(up, preset) => BASE.(operation := 9, selector := preset, flags := Bit(up))
    case Tune => BASE.(operation := 10)
    case GetSetting(n) => BASE.(operation := 11, selector := n)
    case SetSetting(n, v) =>
      BASE.(operation := 12, selector := n, magnitude := v.magnitude, decimalPlaces := v.places,
          flags := Bit(v.negative))
    case StartScan(n) => BASE.(operation := 13, selector := n)
    case PauseScan => BASE.(operation := 14)
    case ResumeScan => BASE.(operation := 15)
    case StopScan => BASE.(operation := 16)
    case ScanDirection(up) => BASE.(operation := 17, flags := Bit(up))
    case Skip => BASE.(operation := 18)
    case Memory(n) => BASE.(operation := 19, selector := n)
    case Catalog(kind, page) =>
      BASE.(operation := 20, magnitude := page,
            selector := match kind case Capabilities => 1 case Memories => 2 case ScanLists => 3)
    case ScanStatus(n) => BASE.(operation := 21, selector := n)
    case Inhibit(enabled) => BASE.(operation := 22, flags := Bit(enabled))
    case Dwell(ms) => BASE.(operation := 23, magnitude := ms)
    case ResumeDelay(ms) => BASE.(operation := 24, magnitude := ms)
    case Priority(member) => BASE.(operation := 25, selector := if member.Some? then member.value else 0)
    case CurrentStatus => BASE.(operation := 26)
    case Invoke(n) => BASE.(operation := 27, selector := n)
  }

  /** The receiving side: what command a record stands for. */
  function Decode(o: Operation): Option<RemoteCommand> {
    match o.operation
    case 1 => Some(Recall(o.selector))
    case 2 => Some(Frequency(o.magnitude, if o.flags == 1 then Minus else if o.flags == 2 then Simplex else Plus))
    case 3 => Some(Tone(o.flags == 1, o.magnitude))
    case 4 => Some(ToneEnabled(o.flags % 2 == 1, o.flags / 2 == 1))
    case 5 => Some(PowerPreset(o.selector))
    case 6 => Some(Status(o.flags == 1))
    case 7 => Some(Mode(o.selector))
    case 8 => Some(Step(o.signedValue))
    case 9 => Some(ScanPreset(o.flags == 1, o.selector))
    case 10 => Some(Tune)
    case 11 => Some(GetSetting(o.selector))
    case 12 => Some(SetSetting(o.selector, DecimalValue(o.flags == 1, o.magnitude, o.decimalPlaces)))
    case 13 => Some(StartScan(o.selector))
    case 14 => Some(PauseScan)
    case 15 => Some(ResumeScan)
    case 16 => Some(StopScan)
    case 17 => Some(ScanDirection(o.flags == 1))
    case 18 => Some(Skip)
    case 19 => Some(Memory(o.selector))
    case 20 =>
      var kind := if o.selector == 1 then Capabilities else if o.selector == 2 then Memories else ScanLists;
      Some(Catalog(kind, o.magnitude))
    case 21 => Some(ScanStatus(o.selector))
    case 22 => Some(Inhibit(o.flags == 1))
    case 23 => Some(Dwell(o.magnitude))
    case 24 => Some(ResumeDelay(o.magnitude))
    case 25 => Some(Priority(if o.selector == 0 then None else Some(o.selector)))
    case 26 => Some(CurrentStatus)
    case 27 => Some(Invoke(o.selector))
    case _ => None
  }

  /** Priority member zero and no priority share a record. */
  function Normal(c: RemoteCommand): RemoteCommand {
    if c == Priority(Some(0)) then Priority(None) else c
  }

  lemma DecodeWire(c: RemoteCommand)
    ensures Decode(Wire(c)) == Some(Normal(c))
  {
  }

  /** Every field of the record fits its C type. */
  lemma WireFits(c: RemoteCommand)
    requires Typed(c)
    ensures var o := Wire(c);
            && 1 <= o.operation <= 27 && o.selector <= U32_MAX && o.magnitude <= U64_MAX && o.flags <= 3
            && I64_MIN <= o.signedValue <= I64_MAX && o.decimalPlaces <= U32_MAX
  {
  }

  /** Two commands share a record exactly when they are equal or are the two spellings of no priority. */
  lemma WireCollisions(a: RemoteCommand, b: RemoteCommand)
    ensures Wire(a) == Wire(b) <==> Normal(a) == Normal(b)
  {
    DecodeWire(a);
    DecodeWire(b);
  }

  /** Whatever two texts parse to, equal records mean equal commands, and the record gives the command back. */
  lemma TextToWireIsInjective(first: string, second: string)
    requires ParseRemoteCommand(first).Some? && ParseRemoteCommand(second).Some?
    ensures var a, b := ParseRemoteCommand(first).value, ParseRemoteCommand(second).value;
            Decode(Wire(a)) == Some(a) && (Wire(a) == Wire(b) ==> a == b)
  {
    var a, b := ParseRemoteCommand(first).value, ParseRemoteCommand(second).value;
    RangeIsImage(a);
    RangeIsImage(b);
    DecodeWire(a);
    DecodeWire(b);
  }
}
