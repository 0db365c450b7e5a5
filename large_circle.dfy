/**
 * The hot-key console of large-circle.py, the earlier version: a press
 * filter, the `r` and `b` toggles and the clamped blink-frequency steps,
 * the startup values and the ordered summary line.
 */
module LargeCircle {
  import opened Wrappers
  import opened Events
  import Text
  import KeyTranslator
  import Registry

  /** The attributes of this version's Options. */
  datatype Settings = Settings(
    ratio: real,
    tic: real,
    wedges: int,
    rings: int,
    maxr: real,
    blinkFreq: real,
    blinkToggle: bool,
    rotationSpeed: real)

  /** The bounds and the step of the blink-frequency hot-keys. */
  const BlinkMax := 20.0
  const BlinkMin := 0.5
  const BlinkStep := 0.1

  function Min(a: real, b: real): real { if b < a then b else a }
  function Max(a: real, b: real): real { if b > a then b else a }

  /**
   * key_callback on settings `s`: presses only; `chr(key)` must succeed;
   * then the four hot-key ifs on `chr(key).lower()` one after the other, and
   * Escape asks the window to close. Modifiers play no part. Only
   * rotation_speed, blink_toggle and blink_freq can change; the window is
   * asked to close exactly on an Escape press; ValueError comes exactly from
   * a key code `chr` rejects, and then nothing has changed.
   */
  function Step(s: Settings, key: int, action: int): (r: (Settings, Reply))
    ensures r.0 == s.(rotationSpeed := r.0.rotationSpeed, blinkToggle := r.0.blinkToggle, blinkFreq := r.0.blinkFreq)
    ensures r.1 == CloseWindow <==> action == Press && key == KeyEscape
    ensures r.1 == Raised(ValueError) <==> action == Press && KeyTranslator.CharOf(key).None?
    ensures r.1 == Raised(ValueError) ==> r.0 == s
  {
    if action != Press then (s, Done)
    else
      match KeyTranslator.CharOf(key)
      case None => (s, Raised(ValueError))
      case Some(ch) =>
        var c := KeyTranslator.Lower(ch);
        var s1 := if c == 'r' then s.(rotationSpeed := 1.0 - s.rotationSpeed) else s;
        var s2 := if c == 'b' then s1.(blinkToggle := !s1.blinkToggle) else s1;
        var s3 := if c in ['=', '+'] then s2.(blinkFreq := Min(s2.blinkFreq + BlinkStep, BlinkMax)) else s2;
        var s4 := if c in ['-', '_'] then s3.(blinkFreq := Max(s3.blinkFreq - BlinkStep, BlinkMin)) else s3;
        (s4, if key == KeyEscape then CloseWindow else Done)
  }

  /** One key event as the callback receives it (scancode and modifiers are not used). */
  datatype Event = Event(key: int, action: int)

  /** The settings after a sequence of events: only rotation_speed, blink_toggle and blink_freq can differ. */
  function Run(s: Settings, events: seq<Event>): (r: Settings)
    ensures r == s.(rotationSpeed := r.rotationSpeed, blinkToggle := r.blinkToggle, blinkFreq := r.blinkFreq)
    decreases |events|
  {
    if events == [] then s
    else Run(Step(s, events[0].key, events[0].action).0, events[1..])
  }

  /** blink_freq within the hot-keys' bounds. */
  predicate InRange(s: Settings) {
    BlinkMin <= s.blinkFreq <= BlinkMax
  }

  /** The script's startup assignments; they put blink_freq within the hot-keys' bounds. */
  function Initial(ratio: real, now: real): (r: Settings)
    ensures InRange(r)
  {
    Settings(ratio := ratio, tic := now, wedges := 12, rings := 5, maxr := 0.7,
             blinkFreq := 3.0, blinkToggle := false, rotationSpeed := 0.0)
  }

  /** Events other than a press change nothing. */
  lemma NonPressIgnored(s: Settings, key: int, action: int)
    requires action != Press
    ensures Step(s, key, action) == (s, Done)
  {
  }

  /** A key code chr rejects raises ValueError and changes nothing. */
  lemma InvalidKeyRaises(s: Settings, key: int)
    requires KeyTranslator.CharOf(key).None?
    ensures Step(s, key, Press) == (s, Raised(ValueError))
  {
  }

  /** Escape asks the window to close and changes no attribute. */
  lemma EscapeCloses(s: Settings)
    ensures Step(s, KeyEscape, Press) == (s, CloseWindow)
  {
  }

  /** `r` (either case) maps rotation_speed x to 1 - x; pressing it twice restores the settings. */
  lemma RotationToggle(s: Settings, key: int)
    requires key == 'r' as int || key == 'R' as int
    ensures Step(s, key, Press) == (s.(rotationSpeed := 1.0 - s.rotationSpeed), Done)
    ensures Step(Step(s, key, Press).0, key, Press).0 == s
  {
    assert Step(s.(rotationSpeed := 1.0 - s.rotationSpeed), key, Press).0 == s;
  }

  /** `b` (either case) negates blink_toggle; pressing it twice restores the settings. */
  lemma BlinkToggle(s: Settings, key: int)
    requires key == 'b' as int || key == 'B' as int
    ensures Step(s, key, Press) == (s.(blinkToggle := !s.blinkToggle), Done)
    ensures Step(Step(s, key, Press).0, key, Press).0 == s
  {
    assert Step(s.(blinkToggle := !s.blinkToggle), key, Press).0 == s;
  }

  /**
   * `=` or `+` raises blink_freq by 0.1 capped at 20: the result is never
   * above 20, and never below the old value when that was at most 20.
   */
  lemma BlinkFaster(s: Settings, key: int)
    requires key == '=' as int || key == '+' as int
    ensures var t := Step(s, key, Press).0;
      t == s.(blinkFreq := t.blinkFreq)
      && t.blinkFreq <= BlinkMax
      && (s.blinkFreq <= BlinkMax ==> s.blinkFreq <= t.blinkFreq)
      && (s.blinkFreq + BlinkStep <= BlinkMax ==> t.blinkFreq == s.blinkFreq + BlinkStep)
  {
  }

  /**
   * `-` or `_` lowers blink_freq by 0.1 floored at 0.5: the result is never
   * below 0.5, and never above the old value when that was at least 0.5.
   */
  lemma BlinkSlower(s: Settings, key: int)
    requires key == '-' as int || key == '_' as int
    ensures var t := Step(s, key, Press).0;
      t == s.(blinkFreq := t.blinkFreq)
      && BlinkMin <= t.blinkFreq
      && (BlinkMin <= s.blinkFreq ==> t.blinkFreq <= s.blinkFreq)
      && (BlinkMin <= s.blinkFreq - BlinkStep ==> t.blinkFreq == s.blinkFreq - BlinkStep)
  {
  }

  /** Only the four hot-keys touch blink_freq, and none of them leaves the range. */
  lemma StepKeepsRange(s: Settings, key: int, action: int)
    requires InRange(s)
    ensures InRange(Step(s, key, action).0)
  {
  }

  /** Any sequence of events keeps blink_freq in [0.5, 20] once it is there. */
  lemma {:induction false} RunKeepsRange(s: Settings, events: seq<Event>)
    requires InRange(s)
    ensures InRange(Run(s, events))
    decreases |events|
  {
    if events != [] {
      StepKeepsRange(s, events[0].key, events[0].action);
      RunKeepsRange(Step(s, events[0].key, events[0].action).0, events[1..]);
    }
  }

  /** From the startup value 3, blink_freq stays in [0.5, 20] whatever keys are pressed. */
  lemma StartupKeepsRange(ratio: real, now: real, events: seq<Event>)
    ensures InRange(Initial(ratio, now))
    ensures InRange(Run(Initial(ratio, now), events))
  {
    RunKeepsRange(Initial(ratio, now), events);
  }

  /** The annotated attributes of this version's Options. */
  datatype Field = Ratio | Tic | Wedges | Rings | Maxr | BlinkFreq | BlinkToggleField | RotationSpeed

  /** The annotated attributes in declaration order. */
  const Fields: seq<Field> := [Ratio, Tic, Wedges, Rings, Maxr, BlinkFreq, BlinkToggleField, RotationSpeed]

  function Name(f: Field): string {
    match f
    case Ratio => "ratio"
    case Tic => "tic"
    case Wedges => "wedges"
    case Rings => "rings"
    case Maxr => "maxr"
    case BlinkFreq => "blink_freq"
    case BlinkToggleField => "blink_toggle"
    case RotationSpeed => "rotation_speed"
  }

  function Get(s: Settings, f: Field): Registry.Value {
    match f
    case Ratio => Registry.Real(s.ratio)
    case Tic => Registry.Real(s.tic)
    case Wedges => Registry.Int(s.wedges)
    case Rings => Registry.Int(s.rings)
    case Maxr => Registry.Real(s.maxr)
    case BlinkFreq => Registry.Real(s.blinkFreq)
    case BlinkToggleField => Registry.Flag(s.blinkToggle)
    case RotationSpeed => Registry.Real(s.rotationSpeed)
  }

  /** Attribute names are made of lower-case letters and underscores only. */
  lemma NamePlain(f: Field)
    ensures Name(f) != []
    ensures forall c :: c in Name(f) ==> ('a' <= c <= 'z') || c == '_'
  {
  }

  /** One `name=text` entry per attribute, in declaration order; `show` formats a value. */
  function Entries(s: Settings, show: Registry.Value -> string): seq<string> {
    Registry.Assignments(Fields, Name, f => show(Get(s, f)))
  }

  /** `Options.__str__`: the entries joined with `, `. */
  function Summary(s: Settings, show: Registry.Value -> string): string {
    Text.Join(Entries(s, show), ", ")
  }

  /**
   * The summary lists the eight attributes in declaration order: splitting
   * it on `, ` gives back the entries whenever none of the formatted values
   * holds a comma, and entry i splits at its `=` into the i-th attribute's
   * name and its formatted value.
   */
  lemma SummaryOrder(s: Settings, show: Registry.Value -> string)
    requires forall f :: ',' !in show(Get(s, f))
    ensures Text.Split(Summary(s, show), ", ") == Entries(s, show)
    ensures |Text.Split(Summary(s, show), ", ")| == 8
    ensures forall i :: 0 <= i < 8 ==>
      Text.SplitOnce(Text.Split(Summary(s, show), ", ")[i], '=') == Some((Name(Fields[i]), show(Get(s, Fields[i]))))
  {
    var es := Entries(s, show);
    forall i | 0 <= i < |es|
      ensures ',' !in es[i]
      ensures Text.SplitOnce(es[i], '=') == Some((Name(Fields[i]), show(Get(s, Fields[i]))))
    {
      NamePlain(Fields[i]);
      Registry.AssignmentSplits(Fields, Name, f => show(Get(s, f)), i);
      assert es[i] == Name(Fields[i]) + "=" + show(Get(s, Fields[i]));
    }
    Text.SplitJoin(es, ", ");
  }

  /** The attributes of `opt`. */
  class Options {
    var ratio: real
    var tic: real
    var wedges: int
    var rings: int
    var maxr: real
    var blinkFreq: real
    var blinkToggle: bool
    var rotationSpeed: real

    function Snapshot(): Settings
      reads this
    {
      Settings(ratio, tic, wedges, rings, maxr, blinkFreq, blinkToggle, rotationSpeed)
    }

    /** `Options()` followed by the script's assignments, in their order. */
    constructor Startup(r: real, now: real)
      ensures Snapshot() == Initial(r, now)
    {
      ratio := r;
      tic := now;
      wedges := 12;
      rings := 5;
      maxr := 0.7;
      rotationSpeed := 0.0;
      blinkFreq := 3.0;
      blinkToggle := false;
    }

    /** key_callback: the attributes change as Step says and the call ends with its reply. */
    method KeyCallback(key: int, action: int) returns (reply: Reply)
      modifies this
      ensures (Snapshot(), reply) == Step(old(Snapshot()), key, action)
    {
      if action != Press {
        return Done;
      }
      var ch := KeyTranslator.CharOf(key);
      if ch.None? {
        return Raised(ValueError);
      }
      var c := KeyTranslator.Lower(ch.value);
      if c == 'r' {
        rotationSpeed := 1.0 - rotationSpeed;
      }
      if c == 'b' {
        blinkToggle := !blinkToggle;
      }
      if c in ['=', '+'] {
        blinkFreq := Min(blinkFreq + BlinkStep, BlinkMax);
      }
      if c in ['-', '_'] {
        blinkFreq := Max(blinkFreq - BlinkStep, BlinkMin);
      }
      reply := if key == KeyEscape then CloseWindow else Done;
    }
  }
}
