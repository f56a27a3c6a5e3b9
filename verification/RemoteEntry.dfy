/** From keypad to command: every remote-base command can be typed on a collector and is understood. */
module RemoteEntry {
  import opened Options
  import opened Commands
  import opened CommandCollector
  import R = RemoteCommands
  import T = RemoteRoundTrip

  predicate KeyText(text: string) {
    forall i :: 0 <= i < |text| ==> Digit(text[i]) || text[i] == '*'
  }

  lemma Powers()
    ensures R.Pow10(10) == 10_000_000_000 && R.Pow10(20) == 100_000_000_000_000_000_000
  {
    R.Pow10Small(5);
    R.Pow10Adds(5, 5);
    R.Pow10Adds(10, 10);
  }

  lemma {:induction false} DecLength(n: nat, k: nat)
    requires k > 0 && n < R.Pow10(k)
    ensures |R.Dec(n)| <= k && KeyText(R.Dec(n))
  {
    if n >= 10 {
      assert n / 10 < R.Pow10(k - 1);
      DecLength(n / 10, k - 1);
    }
  }

  lemma DecShape(n: nat)
    ensures n <= R.U32_MAX ==> |R.Dec(n)| <= 10 && KeyText(R.Dec(n))
    ensures n <= R.U64_MAX ==> |R.Dec(n)| <= 20 && KeyText(R.Dec(n))
  {
    Powers();
    if n <= R.U32_MAX {
      DecLength(n, 10);
    } else if n <= R.U64_MAX {
      DecLength(n, 20);
    }
  }

  lemma FrequencyShape(hertz: nat, offset: R.Offset)
    requires hertz <= R.U64_MAX
    ensures |T.FrequencyText(hertz, offset)| <= 28 && KeyText(T.FrequencyText(hertz, offset))
  {
    DecShape(hertz / 1_000_000);
    R.PaddedValue(hertz % 1_000_000 / 10, 5);
  }

  lemma SettingShape(n: nat, v: R.DecimalValue)
    requires n <= R.U32_MAX && v.magnitude <= R.U64_MAX && v.places <= 6
    ensures |T.SettingText(n, v)| <= 44 && KeyText(T.SettingText(n, v))
  {
    DecShape(n);
    DecShape(v.magnitude);
    DecShape(v.places);
  }

  lemma NumberedShape(prefix: string, n: nat)
    requires KeyText(prefix) && |prefix| <= 3 && n <= R.U64_MAX
    ensures |prefix + R.Dec(n)| <= 23 && KeyText(prefix + R.Dec(n))
  {
    DecShape(n);
  }

  lemma FieldedShape(c: R.RemoteCommand)
    requires T.InRange(c) && (c.Frequency? || c.SetSetting? || c.Tone?)
    ensures |T.Print(c)| <= 46 && KeyText(T.Print(c))
  {
    match c
    case Frequency(hertz, offset) => FrequencyShape(hertz, offset);
    case SetSetting(n, v) => SettingShape(n, v);
    case Tone(_, tenths) =>
      DecShape(tenths / 10);
      DecShape(tenths % 10);
  }

  lemma PrintShape(c: R.RemoteCommand)
    requires T.InRange(c)
    ensures |T.Print(c)| <= 46 && KeyText(T.Print(c))
  {
    match c
    case Frequency(_, _) => FieldedShape(c);
    case SetSetting(_, _) => FieldedShape(c);
    case Tone(_, _) => FieldedShape(c);
    case Recall(n) => NumberedShape("0", n);
    case GetSetting(n) => NumberedShape("90", n);
    case StartScan(n) => NumberedShape("92", n);
    case Memory(n) => NumberedShape("98", n);
    case Catalog(kind, page) =>
      NumberedShape(match kind case Capabilities => "990" case Memories => "991" case ScanLists => "992", page);
    case ScanStatus(n) => NumberedShape("993", n);
    case Dwell(ms) => NumberedShape("995", ms);
    case ResumeDelay(ms) => NumberedShape("996", ms);
    case Priority(member) => NumberedShape("997", if member.Some? then member.value else 0);
    case Invoke(n) => NumberedShape("999", n);
    case _ =>
  }

  /** On the way into the remote family, and inside it, nothing finishes by itself. */
  lemma NothingFinishes(ms: seq<Mapping>, m: Mapping, text: string)
    requires Validate(ms) == None && m in ms && Remote(m) && (text <= m.digits || m.digits <= text)
    ensures !AutoFinish(ms, text)
  {
    if m.digits <= text {
      assert RemoteFamily(ms, text);
      FamiliesDisjoint(ms, text);
    } else if AutoFinish(ms, text) {
      AutoFinishMeaning(ms, text);
      var x :| x in ms && Exact(x, text);
      ValidPairs(ms, x, m);
    }
  }

  lemma RemoteTextUnderWay(ms: seq<Mapping>, m: Mapping, payload: string)
    requires Validate(ms) == None && m in ms && Remote(m) && |payload| <= 64 && KeyText(payload)
    ensures UnderWay(ms, m.digits + payload)
  {
    var text := m.digits + payload;
    assert !BadPrefix(m);
    forall i | 0 <= i < |text|
      ensures Accepted(text[i]) && (text[i] == '*' ==> RemoteFamily(ms, text[..i]))
    {
      if i < |m.digits| {
        assert Key(m.digits[i]);
      } else {
        assert text[i] == payload[i - |m.digits|];
        assert m.digits <= text[..i];
      }
    }
    forall i | 1 <= i <= |text|
      ensures !AutoFinish(ms, text[..i])
    {
      assert text[..i] <= m.digits || m.digits <= text[..i];
      NothingFinishes(ms, m, text[..i]);
    }
  }

  /**
    With one remote prefix enabled, typing a star, the prefix, a command's canonical text and the
    terminator hands on text that parses to that command, whatever was typed before outside the family.
   */
  lemma RemoteCommandsCanBeTyped(ms: seq<Mapping>, m: Mapping, c: R.RemoteCommand,
                                 before: seq<Press>, star: Press, presses: seq<Press>, end: Press)
    requires Validate(ms) == None && m in ms && Remote(m) && OneRemote(ms) && T.InRange(c)
    requires !InFamily(ms, After(ms, before)) && star.key == '*' && end.key == '#'
    requires Keys(presses) == m.digits + T.Print(c)
    ensures var out := Emitted(ms, before + [star] + presses + [end]);
            out == Some(Keys(presses)) && ParseRemote(ms, out.value) == Some(c)
  {
    var text := m.digits + T.Print(c);
    PrintShape(c);
    RemoteTextUnderWay(ms, m, T.Print(c));
    assert text == text[..|text|];
    assert !AutoFinish(ms, text);
    assert Typeable(ms, text);
    TypedIsEmitted(ms, before, star, presses, end);
    FindRemoteMeaning(ms);
    assert text[|m.digits|..] == T.Print(c);
    T.ParseInvertsPrint(c);
  }
}
