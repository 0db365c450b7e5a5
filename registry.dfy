/**
 * The parameter registry of large-circle-v2.py: the fields of its Options
 * class as one value, the declared (annotated) fields in declaration order,
 * typed access to them, and the one-line-per-field summary that `__str__`
 * builds and the render callback splits back into lines.
 */
module Registry {
  import opened Wrappers
  import Text

  /** A three-component value: an RGB colour, or a selected patch (ring index, wedge index, frequency). */
  datatype Vec3 = Vec3(x: real, y: real, z: real)

  /**
   * Every attribute the console reads or writes. `blinkFreq` is not declared
   * by the class: it exists only once a `blink_freq` command has created it.
   */
  datatype Settings = Settings(
    ratio: real,
    tic: real,
    wedges: int,
    maxR: real,
    ringEdges: seq<real>,
    focusR1: real,
    focusR2: real,
    focusColor: Vec3,
    blinkToggle: bool,
    grids: int,
    selectedPatches: seq<Vec3>,
    idleDisplayMode: int,
    rotationSpeed: real,
    commandMode: bool,
    command: string,
    blinkFreq: Option<real>)

  /** The annotated fields of Options. */
  datatype Field =
    | Ratio | Tic | Wedges | MaxR | RingEdges | FocusR1 | FocusR2 | FocusColor
    | BlinkToggle | Grids | SelectedPatches | IdleDisplayMode | RotationSpeed
    | CommandMode | Command

  /** The annotated fields in declaration order (the order of `__annotations__`). */
  const Fields: seq<Field> := [
    Ratio, Tic, Wedges, MaxR, RingEdges, FocusR1, FocusR2, FocusColor,
    BlinkToggle, Grids, SelectedPatches, IdleDisplayMode, RotationSpeed,
    CommandMode, Command]

  /** A field's attribute name. */
  function Name(f: Field): string {
    match f
    case Ratio => "ratio"
    case Tic => "tic"
    case Wedges => "wedges"
    case MaxR => "max_r"
    case RingEdges => "ring_edges"
    case FocusR1 => "focus_r1"
    case FocusR2 => "focus_r2"
    case FocusColor => "focus_color"
    case BlinkToggle => "blink_toggle"
    case Grids => "grids"
    case SelectedPatches => "selected_patches"
    case IdleDisplayMode => "idle_display_mode"
    case RotationSpeed => "rotation_speed"
    case CommandMode => "command_mode"
    case Command => "command"
  }

  /** The name of the undeclared attribute the blink hot-keys use. */
  const BlinkFreqName := "blink_freq"

  /** The declared field an attribute name denotes, if any. */
  function FieldNamed(name: string): (r: Option<Field>)
    ensures r.Some? ==> Name(r.value) == name
    ensures r.None? ==> forall f :: Name(f) != name
  {
    if name == "ratio" then Some(Ratio)
    else if name == "tic" then Some(Tic)
    else if name == "wedges" then Some(Wedges)
    else if name == "max_r" then Some(MaxR)
    else if name == "ring_edges" then Some(RingEdges)
    else if name == "focus_r1" then Some(FocusR1)
    else if name == "focus_r2" then Some(FocusR2)
    else if name == "focus_color" then Some(FocusColor)
    else if name == "blink_toggle" then Some(BlinkToggle)
    else if name == "grids" then Some(Grids)
    else if name == "selected_patches" then Some(SelectedPatches)
    else if name == "idle_display_mode" then Some(IdleDisplayMode)
    else if name == "rotation_speed" then Some(RotationSpeed)
    else if name == "command_mode" then Some(CommandMode)
    else if name == "command" then Some(Command)
    else None
  }

  /** Where a field stands in the declaration order. */
  function Position(f: Field): (i: nat)
    ensures i < |Fields| && Fields[i] == f
  {
    match f
    case Ratio => 0 case Tic => 1 case Wedges => 2 case MaxR => 3 case RingEdges => 4
    case FocusR1 => 5 case FocusR2 => 6 case FocusColor => 7 case BlinkToggle => 8
    case Grids => 9 case SelectedPatches => 10 case IdleDisplayMode => 11
    case RotationSpeed => 12 case CommandMode => 13 case Command => 14
  }

  /** A field's name leads back to that field. */
  lemma NameRoundTrip(f: Field)
    ensures FieldNamed(Name(f)) == Some(f)
  {
    match f
    case Ratio => case Tic => case Wedges => case MaxR => case RingEdges =>
    case FocusR1 => case FocusR2 => case FocusColor => case BlinkToggle =>
    case Grids => case SelectedPatches => case IdleDisplayMode =>
    case RotationSpeed => case CommandMode => case Command =>
  }

  /** Each field has its own name, every field is listed once, and `blink_freq` names none of them. */
  lemma NamesDistinct()
    ensures forall f :: FieldNamed(Name(f)) == Some(f)
    ensures forall f :: f in Fields
    ensures forall i, j :: 0 <= i < j < |Fields| ==> Fields[i] != Fields[j]
    ensures FieldNamed(BlinkFreqName) == None
  {
    forall f ensures FieldNamed(Name(f)) == Some(f) {
      NameRoundTrip(f);
    }
    forall f ensures f in Fields {
      assert Fields[Position(f)] == f;
    }
  }

  datatype Kind = RealKind | IntKind | FlagKind | ColorKind | RealsKind | PatchesKind | CharsKind

  /** A field's value, tagged with its type. */
  datatype Value =
    | Real(r: real)
    | Int(i: int)
    | Flag(b: bool)
    | Color(c: Vec3)
    | Reals(rs: seq<real>)
    | Patches(ps: seq<Vec3>)
    | Chars(cs: string)

  function KindOf(v: Value): Kind {
    match v
    case Real(_) => RealKind
    case Int(_) => IntKind
    case Flag(_) => FlagKind
    case Color(_) => ColorKind
    case Reals(_) => RealsKind
    case Patches(_) => PatchesKind
    case Chars(_) => CharsKind
  }

  /** A field's declared type (its annotation). */
  function FieldKind(f: Field): Kind {
    match f
    case Ratio | Tic | MaxR | FocusR1 | FocusR2 | RotationSpeed => RealKind
    case Wedges | Grids | IdleDisplayMode => IntKind
    case BlinkToggle | CommandMode => FlagKind
    case FocusColor => ColorKind
    case RingEdges => RealsKind
    case SelectedPatches => PatchesKind
    case Command => CharsKind
  }

  /** getattr for a declared field. */
  function Get(s: Settings, f: Field): (v: Value)
    ensures KindOf(v) == FieldKind(f)
  {
    match f
    case Ratio => Real(s.ratio)
    case Tic => Real(s.tic)
    case Wedges => Int(s.wedges)
    case MaxR => Real(s.maxR)
    case RingEdges => Reals(s.ringEdges)
    case FocusR1 => Real(s.focusR1)
    case FocusR2 => Real(s.focusR2)
    case FocusColor => Color(s.focusColor)
    case BlinkToggle => Flag(s.blinkToggle)
    case Grids => Int(s.grids)
    case SelectedPatches => Patches(s.selectedPatches)
    case IdleDisplayMode => Int(s.idleDisplayMode)
    case RotationSpeed => Real(s.rotationSpeed)
    case CommandMode => Flag(s.commandMode)
    case Command => Chars(s.command)
  }

  /**
   * Typed set: stores v in field f, or fails (None) when v's type is not the
   * field's declared type. Nothing else changes.
   */
  function Put(s: Settings, f: Field, v: Value): (r: Option<Settings>)
    ensures r.Some? <==> KindOf(v) == FieldKind(f)
  {
    if KindOf(v) != FieldKind(f) then None
    else
      Some(match f
        case Ratio => s.(ratio := v.r)
        case Tic => s.(tic := v.r)
        case Wedges => s.(wedges := v.i)
        case MaxR => s.(maxR := v.r)
        case RingEdges => s.(ringEdges := v.rs)
        case FocusR1 => s.(focusR1 := v.r)
        case FocusR2 => s.(focusR2 := v.r)
        case FocusColor => s.(focusColor := v.c)
        case BlinkToggle => s.(blinkToggle := v.b)
        case Grids => s.(grids := v.i)
        case SelectedPatches => s.(selectedPatches := v.ps)
        case IdleDisplayMode => s.(idleDisplayMode := v.i)
        case RotationSpeed => s.(rotationSpeed := v.r)
        case CommandMode => s.(commandMode := v.b)
        case Command => s.(command := v.cs))
  }

  /** A successful Put is read back by Get, and leaves every other field and blink_freq as they were. */
  lemma PutGet(s: Settings, f: Field, v: Value)
    requires KindOf(v) == FieldKind(f)
    ensures Get(Put(s, f, v).value, f) == v
    ensures forall g :: g != f ==> Get(Put(s, f, v).value, g) == Get(s, g)
    ensures Put(s, f, v).value.blinkFreq == s.blinkFreq
  {
  }

  /** switch_idle_display_mode: the next display mode, `(m + 1) % 3`. */
  function NextIdleMode(m: int): (r: int)
    ensures 0 <= r < 3
    ensures 0 <= m < 2 ==> r == m + 1
    ensures m == 2 ==> r == 0
  {
    (m + 1) % 3
  }

  /** Three switches from a valid mode come back to it. */
  lemma NextIdleModeCycle(m: int)
    requires 0 <= m < 3
    ensures NextIdleMode(NextIdleMode(NextIdleMode(m))) == m
    ensures NextIdleMode(m) != m
  {
  }

  /** Attribute names are made of lower-case letters, digits and underscores only. */
  lemma NamePlain(f: Field)
    ensures Name(f) != []
    ensures forall c :: c in Name(f) ==> ('a' <= c <= 'z') || ('0' <= c <= '9') || c == '_'
  {
  }

  /**
   * The entries both `__str__` methods build, one per field in the given
   * order: the field's name, `=`, and its formatted value.
   */
  function Assignments<F>(fields: seq<F>, name: F -> string, text: F -> string): (ls: seq<string>)
    ensures |ls| == |fields|
  {
    seq(|fields|, i requires 0 <= i < |fields| => name(fields[i]) + "=" + text(fields[i]))
  }

  /**
   * Each entry splits at its first `=` back into the field's name and its
   * formatted value, when the name holds no `=`.
   */
  lemma AssignmentSplits<F>(fields: seq<F>, name: F -> string, text: F -> string, i: nat)
    requires i < |fields| && '=' !in name(fields[i])
    ensures Text.SplitOnce(Assignments(fields, name, text)[i], '=') == Some((name(fields[i]), text(fields[i])))
  {
    Text.IndexOfAfter(name(fields[i]), '=', text(fields[i]));
  }

  /**
   * One summary line per declared field, `name=text`, in declaration order;
   * `show` stands for the value formatting of `__str__` (`0.2f` for floats,
   * str() otherwise).
   */
  function Lines(s: Settings, show: Value -> string): seq<string> {
    Assignments(Fields, Name, f => show(Get(s, f)))
  }

  /** Line i of the summary is the name of the i-th declared field, `=`, and that field's formatted value. */
  lemma LinesNamed(s: Settings, show: Value -> string)
    ensures |Lines(s, show)| == |Fields|
    ensures forall i :: 0 <= i < |Fields| ==>
      Text.SplitOnce(Lines(s, show)[i], '=') == Some((Name(Fields[i]), show(Get(s, Fields[i]))))
  {
    forall i | 0 <= i < |Fields|
      ensures Text.SplitOnce(Lines(s, show)[i], '=') == Some((Name(Fields[i]), show(Get(s, Fields[i]))))
    {
      NamePlain(Fields[i]);
      AssignmentSplits(Fields, Name, f => show(Get(s, f)), i);
    }
  }

  /** `Options.__str__`: the lines joined with `||`. */
  function Summary(s: Settings, show: Value -> string): string {
    Text.Join(Lines(s, show), "||")
  }

  /**
   * The render callback splits the summary on `||` and draws one line per
   * field: the split gives back exactly the 15 lines, in declaration order,
   * whenever none of the settings' formatted values contains a `|`.
   */
  lemma SummaryDisplayLines(s: Settings, show: Value -> string)
    requires forall f :: '|' !in show(Get(s, f))
    ensures Text.Split(Summary(s, show), "||") == Lines(s, show)
    ensures |Text.Split(Summary(s, show), "||")| == 15
  {
    var ls := Lines(s, show);
    LinesNamed(s, show);
    forall i | 0 <= i < |ls| ensures '|' !in ls[i] {
      NamePlain(Fields[i]);
      assert ls[i] == Name(Fields[i]) + "=" + show(Get(s, Fields[i]));
    }
    Text.SplitJoin(ls, "||");
  }
}
