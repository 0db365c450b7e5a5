/**
 * The shift-aware key translator of large-circle-v2.py (KeyboardHandler):
 * a GLFW key code and modifier mask become one logical character.
 */
module KeyTranslator {
  import opened Wrappers
  import Events

  predicate IsUpper(c: char) { 'A' <= c <= 'Z' }
  predicate IsLower(c: char) { 'a' <= c <= 'z' }
  predicate IsLetter(c: char) { IsUpper(c) || IsLower(c) }

  /** str.lower() on ASCII letters; other characters are left as they are. */
  function Lower(c: char): (r: char)
    ensures !IsUpper(r) && (IsLetter(r) <==> IsLetter(c))
    ensures IsLower(c) || !IsLetter(c) ==> r == c
  {
    if IsUpper(c) then (c as int + 32) as char else c
  }

  /** str.upper() on ASCII letters; other characters are left as they are. */
  function Upper(c: char): (r: char)
    ensures !IsLower(r) && (IsLetter(r) <==> IsLetter(c))
    ensures IsUpper(c) || !IsLetter(c) ==> r == c
    ensures Lower(r) == Lower(c)
  {
    if IsLower(c) then (c as int - 32) as char else c
  }

  /** Python's chr(key): None where chr raises ValueError (and for surrogate codes). */
  function CharOf(key: int): (r: Option<char>)
    ensures r.Some? <==> (0 <= key < 0xD800 || 0xE000 <= key < 0x11_0000)
    ensures r.Some? ==> r.value as int == key
  {
    if 0 <= key < 0xD800 || 0xE000 <= key < 0x11_0000 then Some(key as char) else None
  }

  /** `mods & glfw.MOD_SHIFT`: Python's & with 1 on any int is its remainder mod 2. */
  predicate ShiftHeld(mods: int) { mods % 2 == Events.ModShift }

  /** The fixed table of unshifted to shifted characters (KeyboardHandler._create_shift_map). */
  function ShiftMap(): map<char, char> {
    map[
      '-' := '_', '=' := '+', '9' := '(', '0' := ')',
      '[' := '{', ']' := '}', ';' := ':', '\'' := '"',
      ',' := '<', '.' := '>', '/' := '?', '\\' := '|',
      '`' := '~', '1' := '!', '2' := '@', '3' := '#',
      '4' := '$', '5' := '%', '6' := '^', '7' := '&',
      '8' := '*'
    ]
  }

  /**
   * The digit and punctuation characters of a US layout, which are the
   * table's keys, listed in increasing code order.
   */
  const DigitsAndPunctuation := "',-./0123456789;=[\\]`"

  /**
   * The character a base character becomes with or without shift: itself
   * without shift; with shift, a table key becomes a non-letter that
   * unshifts back to it, and a letter becomes its upper-case form.
   */
  function Translate(base: char, shift: bool): (r: char)
    ensures !shift ==> r == base
    ensures shift && base in ShiftMap() ==> !IsLetter(r) && r != base && Unshift(r) == base
    ensures shift && IsLetter(base) ==> IsUpper(r) && Lower(r) == Lower(base)
  {
    ShiftMapNoLetters();
    UnshiftInverts();
    if !shift then base
    else if base in ShiftMap() then ShiftMap()[base]
    else Upper(base)
  }

  /**
   * KeyboardHandler.process_key: chr(key).lower(), then with shift held the
   * table counterpart, or else the upper-case form.
   */
  function ProcessKey(key: int, mods: int): (r: Option<char>)
    ensures r.Some? <==> CharOf(key).Some?
    ensures r.Some? && !ShiftHeld(mods) ==> !IsUpper(r.value)
    ensures r.Some? && IsLetter(CharOf(key).value) ==> IsLetter(r.value) && (IsUpper(r.value) <==> ShiftHeld(mods))
  {
    match CharOf(key)
    case None => None
    case Some(ch) => Some(Translate(Lower(ch), ShiftHeld(mods)))
  }

  /** What a character reads as with shift released: the table read backwards, or else lower case. */
  function Unshift(c: char): char {
    match c
    case '_' => '-' case '+' => '=' case '(' => '9' case ')' => '0'
    case '{' => '[' case '}' => ']' case ':' => ';' case '"' => '\''
    case '<' => ',' case '>' => '.' case '?' => '/' case '|' => '\\'
    case '~' => '`' case '!' => '1' case '@' => '2' case '#' => '3'
    case '$' => '4' case '%' => '5' case '^' => '6' case '&' => '7'
    case '*' => '8'
    case _ => Lower(c)
  }

  /** The table has 21 entries, so the 21 pairs it lists have pairwise distinct keys. */
  lemma ShiftMapSize()
    ensures |ShiftMap()| == 21
  {
    DigitsAndPunctuationAscending();
    Increasing(DigitsAndPunctuation);
    ShiftMapKeySet();
  }

  lemma ShiftMapKeySet()
    ensures ShiftMap().Keys == Chars(DigitsAndPunctuation)
  {
    ShiftMapKeys();
    CharsOf(DigitsAndPunctuation);
  }

  /** The keys of the table are exactly the digits and the US-layout punctuation keys. */
  lemma ShiftMapKeys()
    ensures forall c :: c in ShiftMap() <==> c in DigitsAndPunctuation
  {
  }

  /** No key and no value of the table is a letter, and no entry maps a character to itself. */
  lemma ShiftMapNoLetters()
    ensures forall c :: c in ShiftMap() ==> !IsLetter(c) && !IsLetter(ShiftMap()[c]) && ShiftMap()[c] != c
  {
    ShiftMapKeys();
    assert forall i :: 0 <= i < |DigitsAndPunctuation| ==> !IsLetter(DigitsAndPunctuation[i]);
    ShiftedNoLetters();
  }

  lemma ShiftedNoLetters()
    ensures forall c :: c in ShiftMap() ==> !IsLetter(ShiftMap()[c]) && ShiftMap()[c] != c
  {
  }

  lemma DigitsAndPunctuationAscending()
    ensures AscendingByStep(DigitsAndPunctuation) && |DigitsAndPunctuation| == 21
  {
  }

  /** The set of characters of a string. */
  function Chars(s: string): set<char> {
    if s == [] then {} else {s[0]} + Chars(s[1..])
  }

  predicate AscendingByStep(s: string) {
    forall i :: 0 <= i < |s| - 1 ==> s[i] < s[i + 1]
  }

  lemma {:induction false} CharsOf(s: string)
    ensures forall c :: c in Chars(s) <==> c in s
  {
    if s != [] {
      CharsOf(s[1..]);
      assert forall c :: c in s <==> c == s[0] || c in s[1..];
    }
  }

  lemma {:induction false} AscendingTail(s: string)
    requires AscendingByStep(s) && |s| > 0
    ensures AscendingByStep(s[1..])
    ensures forall c :: c in s ==> s[0] <= c
  {
    var t := s[1..];
    forall i | 0 <= i < |t| - 1 ensures t[i] < t[i + 1] {
      assert t[i] == s[i + 1];
    }
    if |t| > 0 {
      AscendingTail(t);
      forall c | c in s ensures s[0] <= c {
        if c != s[0] { assert c in t; }
      }
    }
  }

  /** A string whose characters strictly increase has as many distinct characters as it is long. */
  lemma {:induction false} Increasing(s: string)
    requires AscendingByStep(s)
    ensures |Chars(s)| == |s|
  {
    if |s| > 0 {
      var t := s[1..];
      AscendingTail(s);
      Increasing(t);
      if |t| > 0 {
        AscendingTail(t);
        assert s[0] < t[0];
      }
      assert s[0] !in t;
      CharsOf(t);
    }
  }

  /** No two keys of the table share a shifted character. */
  lemma ShiftMapInjective()
    ensures forall a, b :: a in ShiftMap() && b in ShiftMap() && a != b ==> ShiftMap()[a] != ShiftMap()[b]
  {
    UnshiftInverts();
  }

  /** Unshift undoes every entry of the table. */
  lemma UnshiftInverts()
    ensures forall k :: k in ShiftMap() ==> Unshift(ShiftMap()[k]) == k
  {
  }

  /**
   * With shift held, a digit or punctuation key always takes the table branch,
   * and a letter key always takes the upper-case branch.
   */
  lemma ShiftedBranches(key: int, mods: int)
    requires CharOf(key).Some? && ShiftHeld(mods)
    ensures var base := Lower(CharOf(key).value);
      (base in DigitsAndPunctuation ==> ProcessKey(key, mods) == Some(ShiftMap()[base]))
      && (IsLetter(base) ==> ProcessKey(key, mods) == Some(Upper(base)) && IsUpper(Upper(base)))
  {
    ShiftMapKeys();
    ShiftMapNoLetters();
  }

  /** Only the shift bit of the modifier mask matters. */
  lemma ShiftBitOnly(key: int, m1: int, m2: int)
    requires ShiftHeld(m1) == ShiftHeld(m2)
    ensures ProcessKey(key, m1) == ProcessKey(key, m2)
  {
  }

  /**
   * Releasing shift undoes it: for every key whose character is not itself a
   * shifted symbol, the shifted character unshifts to the unshifted one.
   */
  lemma ShiftRoundTrip(key: int)
    requires CharOf(key).Some? && CharOf(key).value !in ShiftMap().Values
    ensures ProcessKey(key, Events.ModShift).Some?
    ensures Unshift(ProcessKey(key, Events.ModShift).value) == ProcessKey(key, 0).value
  {
    var ch := CharOf(key).value;
    var base := Lower(ch);
    assert ProcessKey(key, 0).value == base;
    assert ProcessKey(key, Events.ModShift).value == Translate(base, true);
    if base in ShiftMap() {
      UnshiftTable(base);
    } else {
      UnshiftUpper(ch);
    }
  }

  lemma UnshiftTable(base: char)
    requires base in ShiftMap()
    ensures Unshift(Translate(base, true)) == base
  {
    UnshiftInverts();
  }

  lemma UnshiftUpper(ch: char)
    requires ch !in ShiftMap().Values && Lower(ch) !in ShiftMap()
    ensures Unshift(Translate(Lower(ch), true)) == Lower(ch)
  {
    var u := Upper(Lower(ch));
    if IsLetter(ch) {
      assert IsUpper(u);
    } else {
      assert u == ch;
      UnshiftDefault(ch);
    }
  }

  /** A character that is no shifted symbol unshifts to its lower-case form. */
  lemma UnshiftDefault(c: char)
    requires c !in ShiftMap().Values
    ensures Unshift(c) == Lower(c)
  {
    var k := Unshift(c);
    assert k in ShiftMap() && ShiftMap()[k] == c ==> c in ShiftMap().Values;
  }
}
