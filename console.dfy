/**
 * The live tuning console of large-circle-v2.py: the two-mode key callback
 * as a pure step function on Settings, the properties of that step, and the
 * Options class whose methods update its fields in place and are proved
 * against the step and against the frame push of FrameSync.
 */
module Console {
  import opened Wrappers
  import opened Events
  import opened Registry
  import Text
  import KeyTranslator
  import Literal
  import Interpreter
  import FrameSync

  /** The characters command mode types into the buffer: the lower-case letters, the digits and eleven symbols. */
  const Allowed: string := Letters + Digits + Symbols
  const Letters: string := "abcdefghijklmnopqrstuvwxyz"
  const Digits: string := "1234567890"
  const Symbols: string := "-_=+. ()[],"

  /** The bounds of the blink-frequency hot-keys. */
  const BlinkMax := 20.0
  const BlinkMin := 0.5

  function Min(a: real, b: real): real { if b < a then b else a }
  function Max(a: real, b: real): real { if b > a then b else a }

  /** The hot-key step: 1 with any modifier held, 0.1 without. */
  function BlinkStep(mods: int): real { if mods != 0 then 1.0 else 0.1 }

  /** Changing only the mode flag and the buffer leaves every other declared field as it was. */
  lemma ModeFieldsOnly(u: Settings, t: Settings)
    requires t == u.(commandMode := t.commandMode, command := t.command)
    ensures forall g :: g != Command && g != CommandMode ==> Get(t, g) == Get(u, g)
  {
    forall g | g != Command && g != CommandMode
      ensures Get(t, g) == Get(u, g)
    {
    }
  }

  /**
   * The Enter commit: the buffered text is interpreted, then the buffer is
   * cleared and command mode left. It ends with an empty buffer outside
   * command mode whatever the text was, and changes no parameter other than
   * the one the buffered text names.
   */
  function Commit(s: Settings): (r: Settings)
    ensures r.command == [] && !r.commandMode
    ensures forall g :: g != Command && g != CommandMode && Interpreter.Target(s.command) != Some(Name(g)) ==>
      Get(r, g) == Get(s, g)
    ensures Interpreter.Target(s.command) != Some(BlinkFreqName) ==> r.blinkFreq == s.blinkFreq
  {
    var u := Interpreter.Interpret(s, s.command);
    ModeFieldsOnly(u, u.(command := [], commandMode := false));
    u.(command := [], commandMode := false)
  }

  /**
   * The command-mode branch, for a key that translates to `c`: its four ifs
   * in order, then return. It never asks the window to close; only Enter
   * changes a parameter, and Enter always ends outside command mode with an
   * empty buffer; IndexError comes only from Backspace on an empty buffer,
   * which then leaves everything as it was.
   */
  function CommandKey(s: Settings, key: int, c: char): (r: (Settings, Reply))
    ensures r.1 == Done || r.1 == Raised(IndexError)
    ensures key != KeyEnter ==> SameParameters(s, r.0)
    ensures key == KeyEnter ==> r.1 == Done && r.0.command == [] && !r.0.commandMode
    ensures r.1 == Raised(IndexError) ==> key == KeyBackspace && s.command == [] && r.0 == s
  {
    var s1 := if key == KeyEscape then s.(command := [], commandMode := false) else s;
    var s2 := if c in Allowed then s1.(command := s1.command + [c]) else s1;
    if key == KeyBackspace && s2.command == [] then (s2, Raised(IndexError))
    else
      var s3 := if key == KeyBackspace then s2.(command := s2.command[..|s2.command| - 1]) else s2;
      if key == KeyEnter then (Commit(s3), Done) else (s3, Done)
  }

  /**
   * The `=`/`+` and `-`/`_` hot-keys: they change blink_freq alone and keep
   * it within [0.5, 20]; reading a blink_freq that does not exist raises
   * AttributeError and changes nothing.
   */
  function BlinkKey(s: Settings, mods: int, c: char, reply: Reply): (r: (Settings, Reply))
    ensures r.0 == s.(blinkFreq := r.0.blinkFreq)
    ensures BlinkInRange(s) ==> BlinkInRange(r.0)
    ensures c !in "=+-_" ==> r == (s, reply)
    ensures c in "=+-_" && s.blinkFreq.None? ==> r == (s, Raised(AttributeError))
    ensures c in "=+-_" && s.blinkFreq.Some? ==> r.1 == reply && r.0.blinkFreq.Some?
    ensures r.1 == reply || (r == (s, Raised(AttributeError)) && c in "=+-_")
  {
    if c in "=+" then
      match s.blinkFreq
      case None => (s, Raised(AttributeError))
      case Some(f) => (s.(blinkFreq := Some(Min(f + BlinkStep(mods), BlinkMax))), reply)
    else if c in "-_" then
      match s.blinkFreq
      case None => (s, Raised(AttributeError))
      case Some(f) => (s.(blinkFreq := Some(Max(f - BlinkStep(mods), BlinkMin))), reply)
    else (s, reply)
  }

  /**
   * The normal-mode branch: the command-mode chord, or else Escape (close
   * the window) and the hot-keys, checked one after the other. `rnd` stands
   * for the three random.random() draws of the `f` hot-key.
   */
  function NormalKey(s: Settings, key: int, mods: int, c: char, rnd: Vec3): (r: (Settings, Reply))
    ensures r.0.command == s.command
    ensures r.0.commandMode == (s.commandMode || (c in ";:" && mods != 0))
    ensures r.1 == CloseWindow ==> key == KeyEscape
    ensures r.1 == Done || r.1 == CloseWindow || r.1 == Raised(AttributeError)
    ensures r.1 == Raised(AttributeError) ==> r.0 == s && s.blinkFreq.None?
  {
    if c in ";:" && mods != 0 then (s.(commandMode := true), Done)
    else
      var reply := if key == KeyEscape then CloseWindow else Done;
      var s1 := if c == 'r' then s.(rotationSpeed := 1.0 - s.rotationSpeed) else s;
      var s2 := if c == 'b' then s1.(blinkToggle := !s1.blinkToggle) else s1;
      var s3 := if c == 'f' then s2.(focusColor := rnd) else s2;
      var s4 := if c == 's' then s3.(idleDisplayMode := NextIdleMode(s3.idleDisplayMode)) else s3;
      BlinkKey(s4, mods, c, reply)
  }

  /**
   * key_callback on settings `s`: the new settings and how the call ended
   * (returned, asked the window to close, or raised). Only Escape in normal
   * mode closes the window; ValueError comes exactly from a key code `chr`
   * rejects; IndexError only from Backspace on an empty buffer; and
   * AttributeError only from a blink hot-key before blink_freq exists. Each
   * exception leaves the settings as they were.
   */
  function Step(s: Settings, key: int, action: int, mods: int, rnd: Vec3): (r: (Settings, Reply))
    ensures r.1 == CloseWindow ==> action == Press && key == KeyEscape && !s.commandMode
    ensures r.1 == Raised(ValueError) <==> action == Press && KeyTranslator.CharOf(key).None?
    ensures r.1 == Raised(IndexError) ==> action == Press && key == KeyBackspace && s.commandMode && s.command == []
    ensures r.1 == Raised(AttributeError) ==> action == Press && !s.commandMode && s.blinkFreq.None?
    ensures r.1.Raised? ==> r.0 == s
  {
    if action != Press then (s, Done)
    else
      match KeyTranslator.ProcessKey(key, mods)
      case None => (s, Raised(ValueError))
      case Some(c) => if s.commandMode then CommandKey(s, key, c) else NormalKey(s, key, mods, c, rnd)
  }

  /** The console invariant: the buffer is empty outside command mode and holds only allowed characters. */
  predicate Consistent(s: Settings) {
    (!s.commandMode ==> s.command == [])
    && forall i :: 0 <= i < |s.command| ==> s.command[i] in Allowed
  }

  /** `t` differs from `s` at most in the mode flag and the buffer. */
  predicate SameParameters(s: Settings, t: Settings) {
    t == s.(commandMode := t.commandMode, command := t.command)
  }

  /** A blink frequency, where one exists, lies within the hot-keys' bounds. */
  predicate BlinkInRange(s: Settings) {
    s.blinkFreq.Some? ==> BlinkMin <= s.blinkFreq.value <= BlinkMax
  }

  /** Every character of the allowed set is ASCII and none is upper case. */
  lemma AllowedChars()
    ensures forall c :: c in Allowed ==> c < '\U{80}' && !KeyTranslator.IsUpper(c)
    ensures forall c :: c in ";:=+-_" ==> c < '\U{80}'
  {
    assert forall i :: 0 <= i < |Letters| ==> 'a' <= Letters[i] <= 'z';
    assert forall i :: 0 <= i < |Digits| ==> '0' <= Digits[i] <= '9';
    assert forall i :: 0 <= i < |Symbols| ==> Symbols[i] < '\U{80}' && !KeyTranslator.IsUpper(Symbols[i]);
  }

  /**
   * Escape, Enter and Backspace translate, whatever the modifiers, to a
   * character beyond ASCII that is neither typed into the buffer nor a chord
   * or hot-key character. With this model's ASCII-only case mapping that
   * character has the key's own code; Python's `chr(256).lower()` is U+0101
   * instead, which is just as far from every character the callback tests.
   */
  lemma SpecialKeyChar(key: int, mods: int)
    requires key == KeyEscape || key == KeyEnter || key == KeyBackspace
    ensures KeyTranslator.ProcessKey(key, mods) == Some(key as char)
    ensures key as char !in Allowed && key as char !in ";:=+-_"
    ensures key as char != 'r' && key as char != 'b' && key as char != 'f' && key as char != 's'
  {
    KeyTranslator.ShiftMapKeys();
    AllowedChars();
  }

  /** Events other than a press change nothing and return normally. */
  lemma NonPressIgnored(s: Settings, key: int, action: int, mods: int, rnd: Vec3)
    requires action != Press
    ensures Step(s, key, action, mods, rnd) == (s, Done)
  {
  }

  /** A key code chr rejects raises ValueError before anything changes. */
  lemma InvalidKeyRaises(s: Settings, key: int, mods: int, rnd: Vec3)
    requires KeyTranslator.CharOf(key).None?
    ensures Step(s, key, Press, mods, rnd) == (s, Raised(ValueError))
  {
  }

  /** The command-mode branch keeps the console invariant. */
  lemma CommandKeyConsistent(s: Settings, key: int, c: char)
    requires Consistent(s) && s.commandMode
    requires key == KeyEscape ==> c !in Allowed
    ensures Consistent(CommandKey(s, key, c).0)
  {
    var s1 := if key == KeyEscape then s.(command := [], commandMode := false) else s;
    var s2 := if c in Allowed then s1.(command := s1.command + [c]) else s1;
    assert forall i :: 0 <= i < |s2.command| ==> s2.command[i] in Allowed;
    if !(key == KeyBackspace && s2.command == []) {
      var s3 := if key == KeyBackspace then s2.(command := s2.command[..|s2.command| - 1]) else s2;
      assert forall i :: 0 <= i < |s3.command| ==> s3.command[i] == s2.command[i];
    }
  }

  /** Every step keeps the console invariant. */
  lemma StepConsistent(s: Settings, key: int, action: int, mods: int, rnd: Vec3)
    requires Consistent(s)
    ensures Consistent(Step(s, key, action, mods, rnd).0)
  {
    if action == Press && KeyTranslator.ProcessKey(key, mods).Some? {
      var c := KeyTranslator.ProcessKey(key, mods).value;
      if s.commandMode {
        if key == KeyEscape {
          SpecialKeyChar(key, mods);
        }
        CommandKeyConsistent(s, key, c);
      }
    }
  }

  /** In command mode, Escape empties the buffer, leaves command mode and changes nothing else. */
  lemma EscapeLeavesCommandMode(s: Settings, mods: int, rnd: Vec3)
    requires s.commandMode
    ensures Step(s, KeyEscape, Press, mods, rnd) == (s.(command := [], commandMode := false), Done)
  {
    SpecialKeyChar(KeyEscape, mods);
  }

  /**
   * In command mode, Enter commits: the buffer ends empty and command mode
   * off whatever the text was, and no parameter other than the one the text
   * names changes.
   */
  lemma EnterCommits(s: Settings, mods: int, rnd: Vec3)
    requires s.commandMode
    ensures Step(s, KeyEnter, Press, mods, rnd) == (Commit(s), Done)
    ensures Step(s, KeyEnter, Press, mods, rnd).0.command == []
    ensures !Step(s, KeyEnter, Press, mods, rnd).0.commandMode
  {
    SpecialKeyChar(KeyEnter, mods);
    var c := KeyEnter as char;
    assert Step(s, KeyEnter, Press, mods, rnd) == CommandKey(s, KeyEnter, c);
    assert c !in Allowed;
  }

  /**
   * In command mode, Enter on a buffer `field value` (or `field=value`)
   * stores the value the text converts to in that field, leaves every other
   * parameter as it was, and ends with an empty buffer outside command mode.
   */
  lemma EnterStores(s: Settings, f: Field, value: string, sep: char, mods: int, rnd: Vec3)
    requires s.commandMode && f != Command && f != CommandMode
    requires Interpreter.Trimmed(value) && (sep == ' ' || sep == '=')
    requires s.command == Name(f) + [sep] + value
    ensures var t := Step(s, KeyEnter, Press, mods, rnd).0;
      && (Interpreter.Converted(f, value).Some? ==> Get(t, f) == Interpreter.Converted(f, value).value)
      && (Interpreter.Converted(f, value).None? ==> Get(t, f) == Get(s, f))
      && (forall g :: g != f && g != Command && g != CommandMode ==> Get(t, g) == Get(s, g))
      && t.blinkFreq == s.blinkFreq && t.command == [] && !t.commandMode
  {
    EnterCommits(s, mods, rnd);
    var u := Interpreter.Interpret(s, s.command);
    Interpreter.InterpretField(s, f, value, sep);
    ModeFieldsOnly(u, Commit(s));
  }

  /** A commit whose text has no space after normalisation only clears the buffer and leaves command mode. */
  lemma CommitWithoutValue(s: Settings)
    requires ' ' !in Interpreter.Normalize(s.command)
    ensures Commit(s) == s.(command := [], commandMode := false)
  {
    Interpreter.InterpretWithoutValue(s, s.command);
  }

  /** In command mode, Backspace pops the last character, or raises IndexError on an empty buffer. */
  lemma BackspacePops(s: Settings, mods: int, rnd: Vec3)
    requires s.commandMode
    ensures var (t, reply) := Step(s, KeyBackspace, Press, mods, rnd);
      if s.command == [] then t == s && reply == Raised(IndexError)
      else t == s.(command := s.command[..|s.command| - 1]) && reply == Done
  {
    SpecialKeyChar(KeyBackspace, mods);
  }

  /**
   * In command mode, any other key appends its character when it is in the
   * allowed set and otherwise changes nothing; no hot-key fires.
   */
  lemma TypingAppends(s: Settings, key: int, mods: int, rnd: Vec3)
    requires s.commandMode
    requires key != KeyEscape && key != KeyEnter && key != KeyBackspace
    requires KeyTranslator.ProcessKey(key, mods).Some?
    ensures var c := KeyTranslator.ProcessKey(key, mods).value;
      Step(s, key, Press, mods, rnd)
      == (if c in Allowed then s.(command := s.command + [c]) else s, Done)
  {
  }

  /** A key pressed in command mode other than Enter changes no parameter: hot-keys do not fire there. */
  lemma CommandModeNoHotKeys(s: Settings, key: int, action: int, mods: int, rnd: Vec3)
    requires s.commandMode
    requires key != KeyEnter
    ensures SameParameters(s, Step(s, key, action, mods, rnd).0)
  {
  }

  /** An upper-case letter is never typed into the buffer: shift with a letter key appends nothing. */
  lemma ShiftedLetterNotTyped(s: Settings, key: int, mods: int, rnd: Vec3)
    requires s.commandMode
    requires KeyTranslator.CharOf(key).Some? && KeyTranslator.IsLetter(KeyTranslator.CharOf(key).value)
    requires KeyTranslator.ShiftHeld(mods)
    ensures Step(s, key, Press, mods, rnd) == (s, Done)
  {
    var c := KeyTranslator.ProcessKey(key, mods).value;
    AllowedChars();
    assert KeyTranslator.IsUpper(c);
  }

  /** In normal mode, `;` with any modifier held (`:` with shift) enters command mode and changes nothing else. */
  lemma ChordEntersCommandMode(s: Settings, mods: int, rnd: Vec3)
    requires !s.commandMode && mods != 0
    ensures Step(s, ';' as int, Press, mods, rnd) == (s.(commandMode := true), Done)
  {
    KeyTranslator.ShiftMapKeys();
    assert KeyTranslator.ShiftMap()[';'] == ':';
  }

  /** Without a modifier `;` is no chord and no hot-key: nothing changes. */
  lemma PlainSemicolonIgnored(s: Settings, rnd: Vec3)
    requires !s.commandMode
    ensures Step(s, ';' as int, Press, 0, rnd) == (s, Done)
  {
  }

  /** In normal mode Escape asks the window to close and changes nothing. */
  lemma EscapeCloses(s: Settings, mods: int, rnd: Vec3)
    requires !s.commandMode
    ensures Step(s, KeyEscape, Press, mods, rnd) == (s, CloseWindow)
  {
    SpecialKeyChar(KeyEscape, mods);
  }

  /** The `r` key, unshifted, maps rotation_speed x to 1 - x and changes nothing else. */
  lemma RotationToggle(s: Settings, mods: int, rnd: Vec3)
    requires !s.commandMode && !KeyTranslator.ShiftHeld(mods)
    ensures Step(s, 'R' as int, Press, mods, rnd) == (s.(rotationSpeed := 1.0 - s.rotationSpeed), Done)
  {
  }

  /** Pressing `r` twice restores the settings. */
  lemma RotationTwice(s: Settings, mods: int, rnd: Vec3)
    requires !s.commandMode && !KeyTranslator.ShiftHeld(mods)
    ensures Step(Step(s, 'R' as int, Press, mods, rnd).0, 'R' as int, Press, mods, rnd) == (s, Done)
  {
    RotationToggle(s, mods, rnd);
    RotationToggle(s.(rotationSpeed := 1.0 - s.rotationSpeed), mods, rnd);
  }

  /** The `b` key, unshifted, negates blink_toggle and changes nothing else. */
  lemma BlinkToggle(s: Settings, mods: int, rnd: Vec3)
    requires !s.commandMode && !KeyTranslator.ShiftHeld(mods)
    ensures Step(s, 'B' as int, Press, mods, rnd) == (s.(blinkToggle := !s.blinkToggle), Done)
  {
  }

  /** Pressing `b` twice restores the settings. */
  lemma BlinkToggleTwice(s: Settings, mods: int, rnd: Vec3)
    requires !s.commandMode && !KeyTranslator.ShiftHeld(mods)
    ensures Step(Step(s, 'B' as int, Press, mods, rnd).0, 'B' as int, Press, mods, rnd) == (s, Done)
  {
    BlinkToggle(s, mods, rnd);
    BlinkToggle(s.(blinkToggle := !s.blinkToggle), mods, rnd);
  }

  /** The `f` key, unshifted, sets the focus colour to the three draws and changes nothing else. */
  lemma FocusColorDraw(s: Settings, mods: int, rnd: Vec3)
    requires !s.commandMode && !KeyTranslator.ShiftHeld(mods)
    ensures Step(s, 'F' as int, Press, mods, rnd) == (s.(focusColor := rnd), Done)
  {
  }

  /** The `s` key, unshifted, moves to the next display mode, which stays in 0..2; three presses come back. */
  lemma IdleModeKey(s: Settings, mods: int, rnd: Vec3)
    requires !s.commandMode && !KeyTranslator.ShiftHeld(mods)
    ensures var t := Step(s, 'S' as int, Press, mods, rnd).0;
      t == s.(idleDisplayMode := NextIdleMode(s.idleDisplayMode)) && 0 <= t.idleDisplayMode < 3
    ensures 0 <= s.idleDisplayMode < 3 ==>
      Step(Step(Step(s, 'S' as int, Press, mods, rnd).0, 'S' as int, Press, mods, rnd).0, 'S' as int, Press, mods, rnd).0 == s
  {
    var t1 := s.(idleDisplayMode := NextIdleMode(s.idleDisplayMode));
    var t2 := t1.(idleDisplayMode := NextIdleMode(t1.idleDisplayMode));
    assert Step(s, 'S' as int, Press, mods, rnd).0 == t1;
    assert Step(t1, 'S' as int, Press, mods, rnd).0 == t2;
    if 0 <= s.idleDisplayMode < 3 {
      NextIdleModeCycle(s.idleDisplayMode);
      assert Step(t2, 'S' as int, Press, mods, rnd).0 == s;
    }
  }

  /**
   * The `=` key (`+` with shift) raises blink_freq by 1 with any modifier
   * held and by 0.1 without, capped at 20: never above 20, never below its
   * old value when that was at most 20.
   * Without a blink_freq it raises AttributeError and changes nothing.
   */
  lemma BlinkFaster(s: Settings, mods: int, rnd: Vec3)
    requires !s.commandMode
    ensures var (t, reply) := Step(s, '=' as int, Press, mods, rnd);
      match s.blinkFreq
      case None => t == s && reply == Raised(AttributeError)
      case Some(f) =>
        reply == Done && t == s.(blinkFreq := t.blinkFreq) && t.blinkFreq.Some?
        && t.blinkFreq.value <= BlinkMax && (f <= BlinkMax ==> f <= t.blinkFreq.value)
        && (mods == 0 && f + 0.1 <= BlinkMax ==> t.blinkFreq.value == f + 0.1)
        && (mods != 0 && f + 1.0 <= BlinkMax ==> t.blinkFreq.value == f + 1.0)
        && (f + BlinkStep(mods) > BlinkMax ==> t.blinkFreq.value == BlinkMax)
  {
    var c := BlinkKeyReached(s, '=', '+', mods, rnd);
  }

  /**
   * The `-` key (`_` with shift) lowers blink_freq by 1 with any modifier
   * held and by 0.1 without, floored at 0.5: never below 0.5, never above its
   * old value when that was at least 0.5. Without a blink_freq it raises AttributeError and changes nothing.
   */
  lemma BlinkSlower(s: Settings, mods: int, rnd: Vec3)
    requires !s.commandMode
    ensures var (t, reply) := Step(s, '-' as int, Press, mods, rnd);
      match s.blinkFreq
      case None => t == s && reply == Raised(AttributeError)
      case Some(f) =>
        reply == Done && t == s.(blinkFreq := t.blinkFreq) && t.blinkFreq.Some?
        && BlinkMin <= t.blinkFreq.value && (BlinkMin <= f ==> t.blinkFreq.value <= f)
        && (mods == 0 && BlinkMin <= f - 0.1 ==> t.blinkFreq.value == f - 0.1)
        && (mods != 0 && BlinkMin <= f - 1.0 ==> t.blinkFreq.value == f - 1.0)
        && (f - BlinkStep(mods) < BlinkMin ==> t.blinkFreq.value == BlinkMin)
  {
    var c := BlinkKeyReached(s, '-', '_', mods, rnd);
  }

  /** Pressing `=` or `-` in normal mode reaches the blink branch with that key or its shifted form. */
  lemma BlinkKeyReached(s: Settings, k: char, shifted: char, mods: int, rnd: Vec3) returns (c: char)
    requires !s.commandMode && (k, shifted) in {('=', '+'), ('-', '_')}
    ensures (c == k || c == shifted) && Step(s, k as int, Press, mods, rnd) == BlinkKey(s, mods, c, Done)
  {
    c := BlinkChar(k, shifted, mods);
    PlainNormalKey(s, k as int, mods, c, rnd);
  }

  /** `=` and `-` translate to themselves, or with shift to `+` and `_`. */
  lemma BlinkChar(k: char, shifted: char, mods: int) returns (c: char)
    requires (k, shifted) in {('=', '+'), ('-', '_')}
    ensures (c == k || c == shifted) && KeyTranslator.ProcessKey(k as int, mods) == Some(c)
  {
    KeyTranslator.ShiftMapKeys();
    assert KeyTranslator.ShiftMap()[k] == shifted;
    c := KeyTranslator.ProcessKey(k as int, mods).value;
  }

  /** A character that is neither a chord nor a hot-key letter goes straight to the blink branch. */
  lemma PlainNormalKey(s: Settings, key: int, mods: int, c: char, rnd: Vec3)
    requires key != KeyEscape && (c == '=' || c == '+' || c == '-' || c == '_')
    ensures NormalKey(s, key, mods, c, rnd) == BlinkKey(s, mods, c, Done)
  {
    assert c !in ";:" && c != 'r' && c != 'b' && c != 'f' && c != 's';
  }

  /** Keys pressed in normal mode keep a blink frequency within [0.5, 20]. */
  lemma NormalModeKeepsBlinkRange(s: Settings, key: int, action: int, mods: int, rnd: Vec3)
    requires !s.commandMode && BlinkInRange(s)
    ensures BlinkInRange(Step(s, key, action, mods, rnd).0)
  {
  }

  /**
   * Options with the class defaults, after the script's startup assignments
   * (ratio, reset_time, selected_patches). The startup settings keep the
   * console invariant, have no blink frequency out of range and a display
   * mode in 0..2, and their first frame pushes both arrays in full.
   */
  function Initial(ratio: real, now: real): (r: Settings)
    ensures Consistent(r) && BlinkInRange(r) && 0 <= r.idleDisplayMode < 3
    ensures FrameSync.Frame(r, now).status == FrameSync.Synced
  {
    Settings(
      ratio := ratio, tic := now, wedges := 12, maxR := 0.7,
      ringEdges := [0.2, 0.3, 0.5, 0.6, 0.9],
      focusR1 := 0.02, focusR2 := 0.05, focusColor := Vec3(0.0, 0.0, 1.0),
      blinkToggle := false, grids := 4,
      selectedPatches := [Vec3(0.0, 1.0, 10.0), Vec3(1.0, 2.0, 20.0)],
      idleDisplayMode := 0, rotationSpeed := 0.0,
      commandMode := false, command := [], blinkFreq := None)
  }

  /** The loop `for i in range(len(vals))` pushing `name[i]`, after the pushes already made. */
  method PushIndexed(before: seq<FrameSync.Push>, name: FrameSync.UniformName, vals: seq<FrameSync.Payload>)
    returns (pushes: seq<FrameSync.Push>)
    ensures pushes == before + FrameSync.Indexed(name, vals, |vals|)
  {
    pushes := before;
    for i := 0 to |vals|
      invariant pushes == before + FrameSync.Indexed(name, vals, i)
    {
      pushes := pushes + [FrameSync.Push(FrameSync.Element(name, i), vals[i])];
    }
  }

  /** The console state: the attributes of `opt`. */
  class Options {
    var ratio: real
    var tic: real
    var wedges: int
    var maxR: real
    var ringEdges: seq<real>
    var focusR1: real
    var focusR2: real
    var focusColor: Vec3
    var blinkToggle: bool
    var grids: int
    var selectedPatches: seq<Vec3>
    var idleDisplayMode: int
    var rotationSpeed: real
    var commandMode: bool
    var command: string
    var blinkFreq: Option<real>

    /** The attributes as one value. */
    function Snapshot(): Settings
      reads this
    {
      Settings(ratio, tic, wedges, maxR, ringEdges, focusR1, focusR2, focusColor, blinkToggle, grids,
               selectedPatches, idleDisplayMode, rotationSpeed, commandMode, command, blinkFreq)
    }

    /** `Options()` and the script's startup assignments. */
    constructor Startup(r: real, now: real)
      ensures Snapshot() == Initial(r, now)
    {
      wedges, maxR, ringEdges := 12, 0.7, [0.2, 0.3, 0.5, 0.6, 0.9];
      focusR1, focusR2, focusColor := 0.02, 0.05, Vec3(0.0, 0.0, 1.0);
      blinkToggle, grids, selectedPatches := false, 4, [];
      idleDisplayMode, rotationSpeed := 0, 0.0;
      commandMode, command, blinkFreq := false, [], None;
      ratio := r;
      tic := now;
      selectedPatches := [Vec3(0.0, 1.0, 10.0), Vec3(1.0, 2.0, 20.0)];
    }

    /** clear_command: empties the buffer. */
    method ClearCommand()
      modifies this
      ensures Snapshot() == old(Snapshot()).(command := [])
    {
      command := [];
    }

    /** switch_idle_display_mode: the next of the three display modes. */
    method SwitchIdleDisplayMode()
      modifies this
      ensures Snapshot() == old(Snapshot()).(idleDisplayMode := NextIdleMode(old(idleDisplayMode)))
    {
      idleDisplayMode := idleDisplayMode + 1;
      idleDisplayMode := idleDisplayMode % 3;
    }

    /** setattr of a float field. */
    method SetReal(f: Field, x: real)
      requires FieldKind(f) == RealKind
      modifies this
      ensures Snapshot() == Put(old(Snapshot()), f, Real(x)).value
    {
      match f
      case Ratio => ratio := x;
      case Tic => tic := x;
      case MaxR => maxR := x;
      case FocusR1 => focusR1 := x;
      case FocusR2 => focusR2 := x;
      case RotationSpeed => rotationSpeed := x;
    }

    /** setattr of an int field. */
    method SetInt(f: Field, x: int)
      requires FieldKind(f) == IntKind
      modifies this
      ensures Snapshot() == Put(old(Snapshot()), f, Int(x)).value
    {
      match f
      case Wedges => wedges := x;
      case Grids => grids := x;
      case IdleDisplayMode => idleDisplayMode := x;
    }

    /** setattr of a declared field with a value of its type. */
    method SetField(f: Field, v: Value)
      requires KindOf(v) == FieldKind(f)
      modifies this
      ensures Snapshot() == Put(old(Snapshot()), f, v).value
    {
      match v
      case Real(x) => SetReal(f, x);
      case Int(x) => SetInt(f, x);
      case Flag(x) =>
        if f == BlinkToggle {
          blinkToggle := x;
        } else {
          assert f == CommandMode;
          commandMode := x;
        }
      case Color(x) => assert f == FocusColor; focusColor := x;
      case Reals(x) => assert f == RingEdges; ringEdges := x;
      case Patches(x) => assert f == SelectedPatches; selectedPatches := x;
      case Chars(x) => assert f == Command; command := x;
    }

    /** The eval'd `setattr(opt, name, value)` of a commit, through the literal grammar. */
    method SetAttr(name: string, value: string)
      modifies this
      ensures Snapshot() == Interpreter.Assign(old(Snapshot()), name, value)
    {
      var parsed := Literal.ParseValue(value);
      if parsed.None? {
        return;
      }
      var lit := parsed.value;
      if name == BlinkFreqName {
        if lit.Scalar? {
          blinkFreq := Some(lit.value);
        }
        return;
      }
      var field := FieldNamed(name);
      if field.None? {
        return;
      }
      var coerced := Interpreter.Coerce(FieldKind(field.value), lit);
      if coerced.Some? {
        SetField(field.value, coerced.value);
      }
    }

    /** Adds `step` to blink_freq capped at 20, or lowers it floored at 0.5; raises when there is none. */
    method StepBlink(up: bool, step: real) returns (ok: bool)
      modifies this
      ensures ok <==> old(blinkFreq).Some?
      ensures !ok ==> Snapshot() == old(Snapshot())
      ensures ok ==> Snapshot() == old(Snapshot()).(blinkFreq := Some(
        if up then Min(old(blinkFreq).value + step, BlinkMax) else Max(old(blinkFreq).value - step, BlinkMin)))
    {
      if blinkFreq.None? {
        return false;
      }
      var f := blinkFreq.value;
      if up {
        blinkFreq := Some(Min(f + step, BlinkMax));
      } else {
        blinkFreq := Some(Max(f - step, BlinkMin));
      }
      return true;
    }

    /** The Enter branch: split, strip and assign, any failure ignored; then clear the buffer and leave command mode. */
    method CommitCommand()
      modifies this
      ensures Snapshot() == Commit(old(Snapshot()))
    {
      ghost var s0 := Snapshot();
      var cmd := Interpreter.Normalize(command);
      var split := Text.SplitOnce(cmd, ' ');
      if split.Some? {
        var (name, rest) := split.value;
        Interpreter.InterpretSplit(s0, s0.command, name, rest);
        SetAttr(name, Text.Strip(rest));
      } else {
        Interpreter.InterpretNoSplit(s0, s0.command);
      }
      assert Snapshot() == Interpreter.Interpret(s0, s0.command);
      ClearCommand();
      commandMode := false;
    }

    /** The command-mode branch of key_callback, for a key that translates to `c`. */
    method TypeKey(key: int, c: char) returns (reply: Reply)
      modifies this
      ensures (Snapshot(), reply) == CommandKey(old(Snapshot()), key, c)
    {
      if key == KeyEscape {
        ClearCommand();
        commandMode := false;
      }
      if c in Allowed {
        command := command + [c];
      }
      if key == KeyBackspace {
        if command == [] {
          return Raised(IndexError);
        }
        command := command[..|command| - 1];
      }
      if key == KeyEnter {
        CommitCommand();
      }
      return Done;
    }

    /** The normal-mode branch of key_callback, for a key that translates to `c`. */
    method HotKey(key: int, mods: int, c: char, rnd: Vec3) returns (reply: Reply)
      modifies this
      ensures (Snapshot(), reply) == NormalKey(old(Snapshot()), key, mods, c, rnd)
    {
      if c in ";:" && mods != 0 {
        commandMode := true;
        return Done;
      }
      reply := if key == KeyEscape then CloseWindow else Done;
      if c == 'r' {
        rotationSpeed := 1.0 - rotationSpeed;
      }
      if c == 'b' {
        blinkToggle := !blinkToggle;
      }
      if c == 'f' {
        focusColor := rnd;
      }
      if c == 's' {
        SwitchIdleDisplayMode();
      }
      reply := BlinkHotKey(mods, c, reply);
    }

    /** The blink-frequency hot-keys of the normal-mode branch; `reply` is how the call ends if they do not raise. */
    method BlinkHotKey(mods: int, c: char, reply0: Reply) returns (reply: Reply)
      modifies this
      ensures (Snapshot(), reply) == BlinkKey(old(Snapshot()), mods, c, reply0)
    {
      reply := reply0;
      if c in "=+" {
        var ok := StepBlink(true, BlinkStep(mods));
        if !ok {
          return Raised(AttributeError);
        }
      }
      if c in "-_" {
        var ok := StepBlink(false, BlinkStep(mods));
        if !ok {
          return Raised(AttributeError);
        }
      }
    }

    /** key_callback: the attributes change as Step says and the call ends with its reply. */
    method KeyCallback(key: int, action: int, mods: int, rnd: Vec3) returns (reply: Reply)
      modifies this
      ensures (Snapshot(), reply) == Step(old(Snapshot()), key, action, mods, rnd)
    {
      if action != Press {
        return Done;
      }
      var processed := KeyTranslator.ProcessKey(key, mods);
      if processed.None? {
        return Raised(ValueError);
      }
      var c := processed.value;
      if commandMode {
        reply := TypeKey(key, c);
      } else {
        reply := HotKey(key, mods, c, rnd);
      }
    }

    /**
     * Options.set at clock reading `now`: the pushes in order and how the
     * frame ended, exactly as FrameSync.Frame describes. The attributes are
     * read, not changed.
     */
    method Set(now: real) returns (pushes: seq<FrameSync.Push>, status: FrameSync.Status)
      ensures FrameSync.FrameResult(pushes, status) == FrameSync.Frame(Snapshot(), now)
    {
      ghost var s := Snapshot();
      pushes := FrameSync.ScalarPushes(Snapshot(), now);
      var n := |selectedPatches|;
      if n >= FrameSync.MaxEntries {
        return pushes, FrameSync.Failed(AssertionError);
      }
      pushes := pushes + [FrameSync.Push(FrameSync.Uniform(FrameSync.UNumSelectedPatches), FrameSync.Int1(n))];
      pushes := PushIndexed(pushes, FrameSync.USelectedPatches, FrameSync.PatchPayloads(selectedPatches));
      assert pushes == FrameSync.ScalarPushes(s, now) + FrameSync.PatchRun(s);
      var m := |ringEdges|;
      if m >= FrameSync.MaxEntries {
        return pushes, FrameSync.Failed(AssertionError);
      }
      pushes := pushes + [FrameSync.Push(FrameSync.Uniform(FrameSync.UNumRings), FrameSync.Int1(m))];
      if m == 0 {
        return pushes, FrameSync.Failed(IndexError);
      }
      ghost var counted := pushes;
      pushes := pushes + [FrameSync.Push(FrameSync.Uniform(FrameSync.UMaxR), FrameSync.Float1(ringEdges[m - 1]))];
      pushes := PushIndexed(pushes, FrameSync.URingEdges, FrameSync.EdgePayloads(ringEdges));
      assert pushes == counted + FrameSync.EdgeRun(s);
      return pushes, FrameSync.Synced;
    }
  }
}
