/**
 * The command interpreter of large-circle-v2.py: what pressing Enter in
 * command mode does with the buffered text before the buffer is cleared.
 * The text is normalised (`=` becomes a space, then strip), split once on
 * its first space into a name and a value, and the value is assigned to the
 * named attribute; any failure leaves the settings as they were.
 */
module Interpreter {
  import opened Wrappers
  import Text
  import Literal
  import opened Registry

  /** `''.join(opt.command).replace('=', ' ').strip()`. */
  function Normalize(buffer: string): (t: string)
    ensures '=' !in t
    ensures t == [] || (!Text.IsSpace(t[0]) && !Text.IsSpace(t[|t| - 1]))
  {
    var r := Text.Replace(buffer, '=', ' ');
    assert '=' !in r;
    Text.Strip(r)
  }

  /**
   * `key, value = cmd.split(' ', 1)` followed by `value.strip()`; None when
   * cmd holds no space, where the unpacking raises.
   */
  function SplitCommand(cmd: string): (r: Option<(string, string)>)
    ensures r.None? <==> ' ' !in cmd
    ensures r.Some? ==> (' ' !in r.value.0 && |r.value.0| < |cmd|
                         && cmd[..|r.value.0| + 1] == r.value.0 + " "
                         && r.value.1 == Text.Strip(cmd[|r.value.0| + 1..]))
  {
    match Text.SplitOnce(cmd, ' ')
    case None => None
    case Some((name, rest)) =>
      assert cmd[|name| + 1..] == rest;
      Some((name, Text.Strip(rest)))
  }

  /** On a normalised text the split never yields an empty name or an empty value. */
  lemma SplitNormalized(buffer: string)
    requires SplitCommand(Normalize(buffer)).Some?
    ensures SplitCommand(Normalize(buffer)).value.0 != []
    ensures SplitCommand(Normalize(buffer)).value.1 != []
  {
    SplitTrimmed(Normalize(buffer));
  }

  /** A text with neither leading nor trailing whitespace splits into two non-empty parts. */
  lemma SplitTrimmed(t: string)
    requires t == [] || (!Text.IsSpace(t[0]) && !Text.IsSpace(t[|t| - 1]))
    requires SplitCommand(t).Some?
    ensures SplitCommand(t).value.0 != [] && SplitCommand(t).value.1 != []
  {
    var name := SplitCommand(t).value.0;
    assert t[0] == (name + " ")[0];
    var rest := t[|name| + 1..];
    assert rest != [] && rest[|rest| - 1] == t[|t| - 1];
    Text.StripNonEmpty(rest);
  }

  /** The attribute name a buffer's commit assigns to, if the split succeeds. */
  function Target(buffer: string): (r: Option<string>)
    ensures r.None? <==> ' ' !in Normalize(buffer)
  {
    match SplitCommand(Normalize(buffer))
    case None => None
    case Some((name, _)) => Some(name)
  }

  /** The field value a literal denotes for a field of kind k, or None when it does not fit. */
  function Coerce(k: Kind, lit: Literal.Literal): (r: Option<Value>)
    ensures r.Some? ==> KindOf(r.value) == k
  {
    match (k, lit)
    case (RealKind, Scalar(x, _)) => Some(Real(x))
    case (IntKind, Scalar(x, true)) => Some(Int(x.Floor))
    case (ColorKind, Tuple(xs)) =>
      if |xs| == 3 then Some(Color(Vec3(xs[0], xs[1], xs[2]))) else None
    case (RealsKind, List(es)) =>
      if forall i :: 0 <= i < |es| ==> es[i].Number? then Some(Reals(ElementValues(es))) else None
    case (PatchesKind, List(es)) =>
      if forall i :: 0 <= i < |es| ==> es[i].Group? && |es[i].items| == 3 then Some(Patches(ElementTriples(es))) else None
    case _ => None
  }

  /** The numbers of a list of number elements. */
  function ElementValues(es: seq<Literal.Element>): (xs: seq<real>)
    requires forall i :: 0 <= i < |es| ==> es[i].Number?
    ensures |xs| == |es| && forall i :: 0 <= i < |es| ==> xs[i] == es[i].value
  {
    seq(|es|, i requires 0 <= i < |es| => es[i].value)
  }

  /** The triples of a list of three-number groups. */
  function ElementTriples(es: seq<Literal.Element>): (ps: seq<Vec3>)
    requires forall i :: 0 <= i < |es| ==> es[i].Group? && |es[i].items| == 3
    ensures |ps| == |es| && forall i :: 0 <= i < |es| ==> ps[i] == Vec3(es[i].items[0], es[i].items[1], es[i].items[2])
  {
    seq(|es|, i requires 0 <= i < |es| => Vec3(es[i].items[0], es[i].items[1], es[i].items[2]))
  }

  /** The field value a value text denotes for field f: the literal it parses to, coerced to f's type. */
  function Converted(f: Field, value: string): (r: Option<Value>)
    ensures r.Some? ==> KindOf(r.value) == FieldKind(f)
  {
    match Literal.ParseValue(value)
    case None => None
    case Some(lit) => Coerce(FieldKind(f), lit)
  }

  /** The number a value text gives `blink_freq`, if it is a single number. */
  function BlinkValue(value: string): Option<real> {
    match Literal.ParseValue(value)
    case Some(Scalar(x, _)) => Some(x)
    case _ => None
  }

  /**
   * `setattr(opt, name, value)`: a value text the literal grammar accepts and
   * that fits the named field's type is stored in that field; `blink_freq`
   * takes a number; anything else leaves the settings unchanged.
   */
  function Assign(s: Settings, name: string, value: string): (r: Settings)
    ensures forall g :: Name(g) != name ==> Get(r, g) == Get(s, g)
    ensures name != BlinkFreqName ==> r.blinkFreq == s.blinkFreq
    ensures FieldNamed(name).Some? && Converted(FieldNamed(name).value, value).Some? ==>
      Get(r, FieldNamed(name).value) == Converted(FieldNamed(name).value, value).value
    ensures FieldNamed(name).Some? && Converted(FieldNamed(name).value, value).None? ==> r == s
    ensures FieldNamed(name).None? && name != BlinkFreqName ==> r == s
    ensures name == BlinkFreqName && BlinkValue(value).Some? ==> r == s.(blinkFreq := BlinkValue(value))
    ensures name == BlinkFreqName && BlinkValue(value).None? ==> r == s
  {
    if name == BlinkFreqName then
      assert FieldNamed(name) == None;
      match BlinkValue(value)
      case None => s
      case Some(x) => s.(blinkFreq := Some(x))
    else
      match FieldNamed(name)
      case None => s
      case Some(f) =>
        match Converted(f, value)
        case None => s
        case Some(v) =>
          PutGet(s, f, v);
          Put(s, f, v).value
  }

  /**
   * The try block of the Enter branch: at most the one attribute the text
   * names changes; a text without a space changes nothing.
   */
  function Interpret(s: Settings, buffer: string): (r: Settings)
    ensures forall g :: Target(buffer) != Some(Name(g)) ==> Get(r, g) == Get(s, g)
    ensures Target(buffer) != Some(BlinkFreqName) ==> r.blinkFreq == s.blinkFreq
  {
    match SplitCommand(Normalize(buffer))
    case None => s
    case Some((name, value)) => Assign(s, name, value)
  }

  /** The commit assigns the stripped text after the first space to the name before it. */
  lemma InterpretSplit(s: Settings, buffer: string, name: string, rest: string)
    requires Text.SplitOnce(Normalize(buffer), ' ') == Some((name, rest))
    ensures Interpret(s, buffer) == Assign(s, name, Text.Strip(rest))
  {
  }

  lemma InterpretNoSplit(s: Settings, buffer: string)
    requires Text.SplitOnce(Normalize(buffer), ' ') == None
    ensures Interpret(s, buffer) == s
  {
  }

  /** A text with no space after normalisation (`blink_freq` alone, say) changes no parameter. */
  lemma InterpretWithoutValue(s: Settings, buffer: string)
    requires ' ' !in Normalize(buffer)
    ensures Interpret(s, buffer) == s
  {
  }

  /** A name that is neither a declared field nor `blink_freq` changes no parameter. */
  lemma InterpretUnknownName(s: Settings, buffer: string)
    requires Target(buffer).Some?
    requires FieldNamed(Target(buffer).value).None? && Target(buffer).value != BlinkFreqName
    ensures Interpret(s, buffer) == s
  {
  }

  /** A word: no whitespace and no `=`. */
  predicate Word(w: string) {
    w != [] && forall i :: 0 <= i < |w| ==> !Text.IsSpace(w[i]) && w[i] != '='
  }

  /** A value text as it can follow the name: no `=`, no whitespace at either end (inner spaces allowed). */
  predicate Trimmed(v: string) {
    v != [] && !Text.IsSpace(v[0]) && !Text.IsSpace(v[|v| - 1]) && '=' !in v
  }

  /** `name value` and `name=value` normalise to `name value` for a word and a trimmed value. */
  lemma NormalizeAssignment(name: string, value: string, sep: char)
    requires Word(name) && Trimmed(value) && (sep == ' ' || sep == '=')
    ensures Normalize(name + [sep] + value) == name + " " + value
  {
    var t := name + " " + value;
    var u := Text.Replace(name + [sep] + value, '=', ' ');
    assert u == t by {
      forall i | 0 <= i < |t| ensures u[i] == t[i] {
        if i < |name| { assert (name + [sep] + value)[i] == name[i]; }
        else if i > |name| {
          assert (name + [sep] + value)[i] == value[i - |name| - 1];
          assert value[i - |name| - 1] in value;
        }
      }
    }
    assert t[0] == name[0] && t[|t| - 1] == value[|value| - 1];
  }

  /** `name value` splits into the name and the value for a word and a trimmed value. */
  lemma SplitAssignment(name: string, value: string)
    requires Word(name) && Trimmed(value)
    ensures SplitCommand(name + " " + value) == Some((name, value))
  {
    assert ' ' !in name by {
      forall i | 0 <= i < |name| ensures name[i] != ' ' { assert !Text.IsSpace(name[i]); }
    }
    Text.IndexOfAfter(name, ' ', value);
  }

  /** Committing `name value` or `name=value`, for a word and a trimmed value, is the assignment of value to name. */
  lemma InterpretAssignment(s: Settings, name: string, value: string, sep: char)
    requires Word(name) && Trimmed(value) && (sep == ' ' || sep == '=')
    ensures Interpret(s, name + [sep] + value) == Assign(s, name, value)
  {
    NormalizeAssignment(name, value, sep);
    SplitAssignment(name, value);
  }

  /**
   * Committing `field value` (or `field=value`) whose value text converts to
   * a value of the field's type stores that value in the field and changes
   * nothing else; a value that does not convert changes nothing.
   */
  lemma InterpretField(s: Settings, f: Field, value: string, sep: char)
    requires Trimmed(value) && (sep == ' ' || sep == '=')
    ensures var r := Interpret(s, Name(f) + [sep] + value);
      && (Converted(f, value).Some? ==> Get(r, f) == Converted(f, value).value)
      && (Converted(f, value).None? ==> r == s)
      && (forall g :: g != f ==> Get(r, g) == Get(s, g))
      && r.blinkFreq == s.blinkFreq
  {
    WordNames(f);
    InterpretAssignment(s, Name(f), value, sep);
    NamesDistinct();
  }

  /** The value a natural number's text gives a float or int field is that number. */
  lemma ConvertedNumber(f: Field, n: nat)
    requires FieldKind(f) == RealKind || FieldKind(f) == IntKind
    ensures Converted(f, Literal.NatText(n)) == Some(if FieldKind(f) == RealKind then Real(n as real) else Int(n))
  {
    Literal.ParseNat(n);
  }

  /**
   * Committing `name n` (or `name=n`) for a real or integer field and a
   * natural number n stores n in that field and changes nothing else.
   */
  lemma InterpretNumber(s: Settings, f: Field, n: nat, sep: char)
    requires FieldKind(f) == RealKind || FieldKind(f) == IntKind
    requires sep == ' ' || sep == '='
    ensures var r := Interpret(s, Name(f) + [sep] + Literal.NatText(n));
      && Get(r, f) == (if FieldKind(f) == RealKind then Real(n as real) else Int(n))
      && (forall g :: g != f ==> Get(r, g) == Get(s, g))
      && r.blinkFreq == s.blinkFreq
  {
    NatWord(n);
    ConvertedNumber(f, n);
    InterpretField(s, f, Literal.NatText(n), sep);
  }

  /** Committing `blink_freq n` creates or overwrites the blink frequency with n and changes no declared field. */
  lemma InterpretBlinkFreq(s: Settings, n: nat)
    ensures Interpret(s, BlinkFreqName + " " + Literal.NatText(n)) == s.(blinkFreq := Some(n as real))
  {
    var value := Literal.NatText(n);
    NatWord(n);
    WordNames(Ratio);
    InterpretAssignment(s, BlinkFreqName, value, ' ');
    Literal.ParseNat(n);
  }

  lemma WordNames(f: Field)
    ensures Word(Name(f)) && Word(BlinkFreqName)
  {
    NamePlain(f);
    var w := Name(f);
    forall i | 0 <= i < |w| ensures !Text.IsSpace(w[i]) && w[i] != '=' {
      assert w[i] in w;
    }
  }

  lemma NatWord(n: nat)
    ensures Word(Literal.NatText(n)) && Trimmed(Literal.NatText(n))
  {
    var t := Literal.NatText(n);
    forall i | 0 <= i < |t| ensures !Text.IsSpace(t[i]) && t[i] != '=' {
      assert Literal.IsDigit(t[i]);
    }
  }

  /**
   * A parenthesised run of numerals converts for `focus_color` exactly when
   * there are three of them, and then gives the colour of their numbers.
   */
  lemma ConvertedColor(ts: seq<string>)
    requires |ts| >= 2 && Literal.Numerals(ts)
    ensures var c := Converted(FocusColor, "(" + Text.Join(ts, ", ") + ")");
      var v := Literal.Values(ts);
      && (c.Some? <==> |ts| == 3)
      && (|ts| == 3 ==> c == Some(Color(Vec3(v[0], v[1], v[2]))))
  {
    Literal.ParseTuple(ts);
    ConvertedTuple("(" + Text.Join(ts, ", ") + ")", Literal.Values(ts));
  }

  lemma ConvertedTuple(text: string, v: seq<real>)
    requires Literal.ParseValue(text) == Some(Literal.Tuple(v))
    ensures var c := Converted(FocusColor, text);
      && (c.Some? <==> |v| == 3)
      && (|v| == 3 ==> c == Some(Color(Vec3(v[0], v[1], v[2]))))
  {
  }

  lemma ConvertedList(f: Field, text: string, es: seq<Literal.Element>)
    requires Literal.ParseValue(text) == Some(Literal.List(es))
    ensures Converted(f, text) == Coerce(FieldKind(f), Literal.List(es))
  {
  }

  lemma ConvertedListText(f: Field, items: seq<seq<string>>)
    requires forall i :: 0 <= i < |items| ==> |items[i]| > 0 && Literal.Numerals(items[i])
    ensures Converted(f, Literal.ListText(items)) == Coerce(FieldKind(f), Literal.List(Literal.ListElements(items)))
  {
    Literal.ParseList(items);
    ConvertedList(f, Literal.ListText(items), Literal.ListElements(items));
  }

  /** A bracketed list of numerals converts for `ring_edges` to the list of their numbers. */
  lemma ConvertedEdges(ts: seq<string>)
    requires Literal.Numerals(ts)
    ensures Converted(RingEdges, Literal.ListText(Singletons(ts))) == Some(Reals(Literal.Values(ts)))
  {
    var items := Singletons(ts);
    forall i | 0 <= i < |items| ensures |items[i]| > 0 && Literal.Numerals(items[i]) {
      assert items[i][0] == ts[i];
    }
    ConvertedListText(RingEdges, items);
    EdgeElements(ts, Literal.ListElements(items));
  }

  lemma EdgeElements(ts: seq<string>, es: seq<Literal.Element>)
    requires Literal.Numerals(ts) && |es| == |ts|
    requires forall i :: 0 <= i < |ts| ==> es[i] == Literal.ItemElement([ts[i]])
    ensures Coerce(RealsKind, Literal.List(es)) == Some(Reals(Literal.Values(ts)))
  {
    forall i | 0 <= i < |ts| ensures es[i] == Literal.Number(Literal.Values(ts)[i]) {
      assert Literal.Numerals([ts[i]]);
    }
    assert ElementValues(es) == Literal.Values(ts);
  }

  /** Each numeral as a list item of its own. */
  function Singletons(ts: seq<string>): (items: seq<seq<string>>)
    ensures |items| == |ts| && forall i :: 0 <= i < |ts| ==> items[i] == [ts[i]]
  {
    seq(|ts|, i requires 0 <= i < |ts| => [ts[i]])
  }

  /**
   * A bracketed list of parenthesised numeral triples converts for
   * `selected_patches` to the list of their (p, q, dim) triples.
   */
  lemma ConvertedPatches(items: seq<seq<string>>)
    requires forall i :: 0 <= i < |items| ==> |items[i]| == 3 && Literal.Numerals(items[i])
    ensures Converted(SelectedPatches, Literal.ListText(items)) == Some(Patches(NumeralTriples(items)))
  {
    ConvertedListText(SelectedPatches, items);
    PatchElements(items, Literal.ListElements(items));
  }

  /** The triples of numbers that numeral triples denote. */
  function NumeralTriples(items: seq<seq<string>>): (ps: seq<Vec3>)
    requires forall i :: 0 <= i < |items| ==> |items[i]| == 3 && Literal.Numerals(items[i])
    ensures |ps| == |items|
  {
    seq(|items|, i requires 0 <= i < |items| =>
      Vec3(Literal.Values(items[i])[0], Literal.Values(items[i])[1], Literal.Values(items[i])[2]))
  }

  lemma PatchElements(items: seq<seq<string>>, es: seq<Literal.Element>)
    requires forall i :: 0 <= i < |items| ==> |items[i]| == 3 && Literal.Numerals(items[i])
    requires es == Literal.ListElements(items)
    ensures Coerce(PatchesKind, Literal.List(es)) == Some(Patches(NumeralTriples(items)))
  {
    forall i | 0 <= i < |items| ensures es[i] == Literal.Group(Literal.Values(items[i])) {
    }
    assert ElementTriples(es) == NumeralTriples(items);
  }
}
