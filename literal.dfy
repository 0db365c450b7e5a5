/**
 * The value side of a console command, `name value`: a closed literal
 * grammar of decimal numbers, parenthesised tuples of numbers and bracketed
 * lists whose elements are numbers or such tuples. It stands for the Python
 * expressions large-circle-v2.py hands to eval for the field types the
 * console declares.
 */
module Literal {
  import opened Wrappers
  import Text

  predicate IsDigit(c: char) { '0' <= c <= '9' }

  predicate AllDigits(s: string) { forall i :: 0 <= i < |s| ==> IsDigit(s[i]) }

  function DigitValue(c: char): nat
    requires IsDigit(c)
  {
    c as int - '0' as int
  }

  function DigitChar(d: nat): (c: char)
    requires d < 10
    ensures IsDigit(c) && DigitValue(c) == d
  {
    ('0' as int + d) as char
  }

  /** The value of a string of decimal digits (0 for the empty string). */
  function DigitsValue(ds: string): nat
    requires AllDigits(ds)
    decreases |ds|
  {
    if ds == [] then 0 else DigitsValue(ds[..|ds| - 1]) * 10 + DigitValue(ds[|ds| - 1])
  }

  function Pow10(k: nat): (p: nat)
    ensures p > 0
  {
    if k == 0 then 1 else 10 * Pow10(k - 1)
  }

  datatype Token = Num(value: real, integral: bool) | LParen | RParen | LBracket | RBracket | Comma

  datatype Element = Number(value: real) | Group(items: seq<real>)

  datatype Literal = Scalar(value: real, integral: bool) | Tuple(items: seq<real>) | List(elements: seq<Element>)

  predicate StartsNumeral(c: char) { IsDigit(c) || c == '.' || c == '+' || c == '-' }

  /** The length of the leading run of digits and points. */
  function RunLength(s: string): (n: nat)
    ensures n <= |s|
    ensures forall i :: 0 <= i < n ==> IsDigit(s[i]) || s[i] == '.'
    ensures n < |s| ==> !(IsDigit(s[n]) || s[n] == '.')
  {
    if s != [] && (IsDigit(s[0]) || s[0] == '.') then 1 + RunLength(s[1..]) else 0
  }

  /** The length of the numeral s starts with: an optional sign, then digits and points. */
  function NumeralLength(s: string): (n: nat)
    requires s != [] && StartsNumeral(s[0])
    ensures 1 <= n <= |s|
  {
    if s[0] == '+' || s[0] == '-' then 1 + RunLength(s[1..]) else RunLength(s)
  }

  /** A decimal integer with a leading zero, which Python refuses unless every digit is zero. */
  predicate LeadingZero(ds: string) {
    |ds| > 1 && ds[0] == '0' && exists i :: 0 < i < |ds| && ds[i] != '0'
  }

  /**
   * The number token a run of sign, digits and points spells: an integer
   * (`12`, `-3`) or a decimal fraction (`0.5`, `5.`, `.5`), or None.
   */
  function Numeral(t: string): (r: Option<Token>)
    ensures r.Some? ==> r.value.Num?
  {
    var neg := |t| > 0 && t[0] == '-';
    var body := if |t| > 0 && (t[0] == '+' || t[0] == '-') then t[1..] else t;
    match Text.IndexOf(body, '.')
    case None =>
      if body != [] && AllDigits(body) && !LeadingZero(body) then
        var v := DigitsValue(body) as real;
        Some(Num(if neg then -v else v, true))
      else None
    case Some(i) =>
      var whole, frac := body[..i], body[i + 1..];
      if AllDigits(whole) && AllDigits(frac) && |whole| + |frac| > 0 then
        var v := DigitsValue(whole) as real + DigitsValue(frac) as real / Pow10(|frac|) as real;
        Some(Num(if neg then -v else v, false))
      else None
  }

  /** The tokens of a value text; spaces separate tokens, any other character is an error. */
  function Lex(s: string): (r: Option<seq<Token>>)
    decreases |s|
  {
    if s == [] then Some([])
    else if s[0] == ' ' then Lex(s[1..])
    else if s[0] in "()[]," then
      Prepend(Punctuation(s[0]), Lex(s[1..]))
    else if StartsNumeral(s[0]) then
      var n := NumeralLength(s);
      match Numeral(s[..n])
      case None => None
      case Some(t) => Prepend(t, Lex(s[n..]))
    else None
  }

  /** The token of a bracket, a parenthesis or a comma. */
  function Punctuation(c: char): Token {
    match c case '(' => LParen case ')' => RParen case '[' => LBracket case ']' => RBracket case _ => Comma
  }

  function Prepend<T>(x: T, r: Option<seq<T>>): Option<seq<T>> {
    match r
    case None => None
    case Some(xs) => Some([x] + xs)
  }

  /** Numbers separated by commas: `n, n, ...`. */
  function Numbers(ts: seq<Token>): (r: Option<seq<real>>)
    ensures r.Some? ==> |r.value| > 0
    decreases |ts|
  {
    if |ts| == 0 || !ts[0].Num? then None
    else if |ts| == 1 then Some([ts[0].value])
    else if ts[1] != Comma then None
    else match Numbers(ts[2..])
      case None => None
      case Some(rest) => Some([ts[0].value] + rest)
  }

  function FirstRParen(ts: seq<Token>): (r: Option<nat>)
    ensures r.Some? ==> r.value < |ts| && ts[r.value] == RParen
  {
    if ts == [] then None
    else if ts[0] == RParen then Some(0)
    else match FirstRParen(ts[1..])
      case None => None
      case Some(j) => Some(j + 1)
  }

  /**
   * What a pair of parentheses around `inner` denotes: the empty tuple, a
   * single number (Python reads `(x)` as x itself), or a tuple of numbers
   * with an optional trailing comma (`(x,)` is a one-element tuple).
   */
  function InParens(inner: seq<Token>): (r: Option<Literal>)
    ensures r.Some? ==> r.value.Scalar? || r.value.Tuple?
    ensures |inner| == 1 && inner[0].Num? ==> r == Some(Scalar(inner[0].value, inner[0].integral))
  {
    if inner == [] then Some(Tuple([]))
    else if |inner| == 1 && inner[0].Num? then Some(Scalar(inner[0].value, inner[0].integral))
    else
      var body := if |inner| >= 2 && inner[|inner| - 1] == Comma then inner[..|inner| - 1] else inner;
      match Numbers(body)
      case None => None
      case Some(xs) => Some(Tuple(xs))
  }

  /** One list element at the front of ts, with the number of tokens it takes. */
  function Item(ts: seq<Token>): (r: Option<(Element, nat)>)
    ensures r.Some? ==> 1 <= r.value.1 <= |ts|
  {
    if ts == [] then None
    else if ts[0].Num? then Some((Number(ts[0].value), 1))
    else if ts[0] != LParen then None
    else match FirstRParen(ts)
      case None => None
      case Some(j) =>
        match InParens(ts[1..j])
        case Some(Scalar(x, _)) => Some((Number(x), j + 1))
        case Some(Tuple(xs)) => Some((Group(xs), j + 1))
        case _ => None
  }

  /** List elements separated by commas. */
  function Elements(ts: seq<Token>): (r: Option<seq<Element>>)
    decreases |ts|
  {
    match Item(ts)
    case None => None
    case Some((e, n)) =>
      if n == |ts| then Some([e])
      else if ts[n] != Comma then None
      else match Elements(ts[n + 1..])
        case None => None
        case Some(rest) => Some([e] + rest)
  }

  /**
   * A whole value: a number, a parenthesised group, or a bracketed list of
   * elements with an optional trailing comma.
   */
  function Parse(ts: seq<Token>): (r: Option<Literal>) {
    if |ts| == 1 && ts[0].Num? then Some(Scalar(ts[0].value, ts[0].integral))
    else if |ts| >= 2 && ts[0] == LParen && ts[|ts| - 1] == RParen then InParens(ts[1..|ts| - 1])
    else if |ts| >= 2 && ts[0] == LBracket && ts[|ts| - 1] == RBracket then
      var inner := ts[1..|ts| - 1];
      var body := if |inner| >= 2 && inner[|inner| - 1] == Comma then inner[..|inner| - 1] else inner;
      if inner == [] then Some(List([]))
      else match Elements(body)
        case None => None
        case Some(es) => Some(List(es))
    else None
  }

  /**
   * The literal a value text denotes, or None when the text is not one. One
   * comma may follow the whole value, since the console hands the text to
   * eval as the last argument of a call, `setattr(opt, "name", value)`.
   */
  function ParseValue(text: string): Option<Literal> {
    match Lex(text)
    case None => None
    case Some(ts) => if ts != [] && ts[|ts| - 1] == Comma then Parse(ts[..|ts| - 1]) else Parse(ts)
  }

  /** The decimal text of a natural number, as str(n) writes it. */
  function NatText(n: nat): (r: string)
    ensures |r| > 0 && AllDigits(r)
    ensures r[0] == '0' ==> n == 0 && |r| == 1
  {
    if n < 10 then [DigitChar(n)] else NatText(n / 10) + [DigitChar(n % 10)]
  }

  lemma {:induction false} NatTextValue(n: nat)
    ensures DigitsValue(NatText(n)) == n
  {
    if n >= 10 {
      var s := NatText(n);
      NatTextValue(n / 10);
      assert s[..|s| - 1] == NatText(n / 10);
    }
  }

  /** A run of digits and points only. */
  predicate RunChars(s: string) { forall i :: 0 <= i < |s| ==> IsDigit(s[i]) || s[i] == '.' }

  /** A text that cannot continue a numeral: empty, or not starting with a digit or a point. */
  predicate EndsNumeral(rest: string) { rest == [] || !(IsDigit(rest[0]) || rest[0] == '.') }

  /** The text of one numeral: an optional sign followed by digits and points. */
  predicate NumeralText(t: string) {
    t != [] && StartsNumeral(t[0]) && RunChars(t[1..])
  }

  lemma {:induction false} RunOfChars(s: string, rest: string)
    requires RunChars(s) && EndsNumeral(rest)
    ensures RunLength(s + rest) == |s|
    decreases |s|
  {
    if s != [] {
      assert (s + rest)[1..] == s[1..] + rest;
      RunOfChars(s[1..], rest);
    } else {
      assert s + rest == rest;
    }
  }

  /** A numeral followed by anything that cannot continue it is read to its end. */
  lemma NumeralLengthOf(t: string, rest: string)
    requires NumeralText(t) && EndsNumeral(rest)
    ensures NumeralLength(t + rest) == |t|
  {
    var s := t + rest;
    assert s[0] == t[0];
    if t[0] == '+' || t[0] == '-' {
      assert s[1..] == t[1..] + rest;
      RunOfChars(t[1..], rest);
    } else {
      assert RunChars(t) by {
        forall i | 0 <= i < |t| ensures IsDigit(t[i]) || t[i] == '.' {
          if i > 0 { assert t[i] == t[1..][i - 1]; }
        }
      }
      RunOfChars(t, rest);
    }
  }

  /** A numeral followed by anything that cannot continue it lexes as its number token first. */
  lemma LexNumeralThen(t: string, rest: string)
    requires NumeralText(t) && Numeral(t).Some? && EndsNumeral(rest)
    ensures Lex(t + rest) == Prepend(Numeral(t).value, Lex(rest))
  {
    var s := t + rest;
    NumeralLengthOf(t, rest);
    assert s[0] == t[0];
    assert s[..|t|] == t && s[|t|..] == rest;
  }

  /** A number token alone, in parentheses, and before a trailing comma in parentheses or brackets. */
  lemma ParseWrapped(n: Token)
    requires n.Num?
    ensures Parse([n]) == Some(Scalar(n.value, n.integral))
    ensures Parse([LParen, n, RParen]) == Some(Scalar(n.value, n.integral))
    ensures Parse([LParen, n, Comma, RParen]) == Some(Tuple([n.value]))
    ensures Parse([LBracket, n, Comma, RBracket]) == Some(List([Number(n.value)]))
  {
    assert [LParen, n, RParen][1..2] == [n];
    assert [LParen, n, Comma, RParen][1..3][..1] == [n];
    assert [LBracket, n, Comma, RBracket][1..3][..1] == [n];
  }

  /** A punctuation character lexes as its token, before the tokens of the rest. */
  lemma LexPunctuation(c: char, rest: string)
    requires c in "()[],"
    ensures Lex([c] + rest) == Prepend(Punctuation(c), Lex(rest))
  {
    assert ([c] + rest)[1..] == rest;
  }

  /** The tokens of the closing texts `)`, `,)` and `,]`. */
  lemma LexClose()
    ensures Lex(")") == Some([RParen])
    ensures Lex(",)") == Some([Comma, RParen])
    ensures Lex(",]") == Some([Comma, RBracket])
  {
    assert Lex([]) == Some([]);
    assert [RParen] + [] == [RParen] && [RBracket] + [] == [RBracket];
    assert Punctuation(')') == RParen && Punctuation(']') == RBracket && Punctuation(',') == Comma;
    LexPunctuation(')', []);
    LexPunctuation(']', []);
    assert [')'] + [] == ")" && [']'] + [] == "]";
    LexPunctuation(',', ")");
    LexPunctuation(',', "]");
    assert [','] + ")" == ",)" && [','] + "]" == ",]";
    assert [Comma] + [RParen] == [Comma, RParen] && [Comma] + [RBracket] == [Comma, RBracket];
  }

  /** The tokens of an opening character, a numeral, and a closing text. */
  lemma LexWrapped(open: char, t: string, close: string, closing: seq<Token>)
    requires open in "([" && NumeralText(t) && Numeral(t).Some?
    requires EndsNumeral(close) && Lex(close) == Some(closing)
    ensures Lex([open] + t + close) == Some([Punctuation(open), Numeral(t).value] + closing)
  {
    var n := Numeral(t).value;
    calc {
      Lex([open] + t + close);
      { assert [open] + t + close == [open] + (t + close); }
      Lex([open] + (t + close));
      { LexPunctuation(open, t + close); }
      Prepend(Punctuation(open), Lex(t + close));
      { LexNumeralThen(t, close); }
      Prepend(Punctuation(open), Some([n] + closing));
      { assert [Punctuation(open)] + ([n] + closing) == [Punctuation(open), n] + closing; }
      Some([Punctuation(open), n] + closing);
    }
  }

  /**
   * A numeral denotes its number alone and inside parentheses (`(x)` is x);
   * with a trailing comma it is a one-element tuple, or a one-element list
   * inside brackets.
   */
  lemma ParseNumeral(t: string)
    requires NumeralText(t) && Numeral(t).Some?
    ensures var n := Numeral(t).value;
      && ParseValue(t) == Some(Scalar(n.value, n.integral))
      && ParseValue("(" + t + ")") == Some(Scalar(n.value, n.integral))
      && ParseValue("(" + t + ",)") == Some(Tuple([n.value]))
      && ParseValue("[" + t + ",]") == Some(List([Number(n.value)]))
  {
    var n := Numeral(t).value;
    ParseBare(t);
    ParseWrapped(n);
    LexClose();
    LexWrapped('(', t, ")", [RParen]);
    LexWrapped('(', t, ",)", [Comma, RParen]);
    LexWrapped('[', t, ",]", [Comma, RBracket]);
    assert [Punctuation('('), n] + [RParen] == [LParen, n, RParen];
    assert [Punctuation('('), n] + [Comma, RParen] == [LParen, n, Comma, RParen];
    assert [Punctuation('['), n] + [Comma, RBracket] == [LBracket, n, Comma, RBracket];
  }

  /** A numeral on its own parses as that number. */
  lemma ParseBare(t: string)
    requires NumeralText(t) && Numeral(t).Some?
    ensures ParseValue(t) == Some(Scalar(Numeral(t).value.value, Numeral(t).value.integral))
  {
    LexNumeralThen(t, []);
    assert t + [] == t;
    ParseWrapped(Numeral(t).value);
  }

  /**
   * Two decimal numerals, `0.5` and the negative `-0.25`; by ParseNumeral,
   * `(0.5)` then reads as the float 0.5 and `(-0.25,)` as a one-element tuple.
   */
  lemma DecimalNumerals()
    ensures NumeralText("0.5") && Numeral("0.5") == Some(Num(0.5, false))
    ensures NumeralText("-0.25") && Numeral("-0.25") == Some(Num(-0.25, false))
  {
    HalfNumeral();
    assert "-0.25"[1..] == "0.25";
    QuarterNumeral();
  }

  lemma HalfNumeral()
    ensures NumeralText("0.5") && Numeral("0.5") == Some(Num(0.5, false))
  {
    assert "0.5"[1..] == ".5" && RunChars(".5");
    assert Text.IndexOf("0.5", '.') == Some(1) by { assert "0.5"[1..] == ".5"; }
    assert "0.5"[..1] == "0" && "0.5"[2..] == "5";
    assert DigitsValue("5") == 5 by { assert "5"[..0] == ""; }
    assert DigitsValue("0") == 0 by { assert "0"[..0] == ""; }
  }

  lemma QuarterNumeral()
    ensures NumeralText("0.25") && Numeral("0.25") == Some(Num(0.25, false))
  {
    var b := "0.25";
    assert b[1..] == ".25" && RunChars(b);
    assert Text.IndexOf(b, '.') == Some(1) by { assert b[1..] == ".25"; }
    assert b[..1] == "0" && b[2..] == "25";
    assert DigitsValue("0") == 0 by { assert "0"[..0] == ""; }
    assert DigitsValue("25") == 25 by { assert "25"[..1] == "2"; assert "2"[..0] == ""; }
    assert Pow10(2) == 100;
  }

  lemma ParseNat(n: nat)
    ensures ParseValue(NatText(n)) == Some(Scalar(n as real, true))
  {
    var t := NatText(n);
    NatTextValue(n);
    assert !LeadingZero(t);
    assert IsDigit(t[0]) && t[0] != '+' && t[0] != '-';
    assert Text.IndexOf(t, '.') == None by {
      forall i | 0 <= i < |t| ensures t[i] != '.' { assert IsDigit(t[i]); }
    }
    assert Numeral(t) == Some(Num(n as real, true));
    assert RunChars(t[1..]) by {
      forall i | 0 <= i < |t| - 1 ensures IsDigit(t[1..][i]) { assert t[1..][i] == t[i + 1]; }
    }
    ParseBare(t);
  }

  /** A value followed by one comma denotes the same literal as the value alone. */
  lemma TrailingComma(text: string)
    requires Lex(text).Some? && Lex(text).value != [] && Lex(text).value[|Lex(text).value| - 1] != Comma
    ensures ParseValue(text + ",") == ParseValue(text)
  {
    var ts := Lex(text).value;
    LexAppend(text, ",");
    LexSingle(',');
    LastDropped(ts, Comma);
  }

  lemma LastDropped<T>(ts: seq<T>, x: T)
    ensures var s := ts + [x]; s != [] && s[|s| - 1] == x && s[..|s| - 1] == ts
  {
    var s := ts + [x];
    assert s[..|s| - 1] == ts;
  }

  // Compound values as they are written: numerals separated by `, `,
  // inside parentheses (a tuple) or brackets (a list).

  /** Each text is a numeral. */
  predicate Numerals(ts: seq<string>) {
    forall i :: 0 <= i < |ts| ==> NumeralText(ts[i]) && Numeral(ts[i]).Some?
  }

  /** The numbers a run of numerals denotes. */
  function Values(ts: seq<string>): (vs: seq<real>)
    requires Numerals(ts)
  {
    seq(|ts|, i requires 0 <= i < |ts| => Numeral(ts[i]).value.value)
  }

  /** A list item as it is written: a numeral alone, or two or more numerals in parentheses. */
  function ItemText(ts: seq<string>): string
    requires |ts| > 0
  {
    if |ts| == 1 then ts[0] else "(" + Text.Join(ts, ", ") + ")"
  }

  /** The list element an item denotes: a number, or a group of numbers. */
  function ItemElement(ts: seq<string>): Element
    requires |ts| > 0 && Numerals(ts)
  {
    if |ts| == 1 then Number(Numeral(ts[0]).value.value) else Group(Values(ts))
  }

  /** A list as it is written: its items separated by `, ` inside brackets. */
  function ListText(items: seq<seq<string>>): string
    requires forall i :: 0 <= i < |items| ==> |items[i]| > 0
  {
    "[" + Text.Join(ItemTexts(items), ", ") + "]"
  }

  function ItemTexts(items: seq<seq<string>>): (texts: seq<string>)
    requires forall i :: 0 <= i < |items| ==> |items[i]| > 0
    ensures |texts| == |items|
  {
    seq(|items|, i requires 0 <= i < |items| => ItemText(items[i]))
  }

  /** The elements a written list denotes. */
  function ListElements(items: seq<seq<string>>): seq<Element>
    requires forall i :: 0 <= i < |items| ==> |items[i]| > 0 && Numerals(items[i])
  {
    seq(|items|, i requires 0 <= i < |items| => ItemElement(items[i]))
  }

  /**
   * Every decimal numeral `w.f`, with an optional sign, denotes the float
   * w + f / 10^|f|, negated after a minus sign.
   */
  lemma DecimalValue(sign: string, whole: string, frac: string)
    requires sign == "" || sign == "+" || sign == "-"
    requires AllDigits(whole) && AllDigits(frac) && |whole| + |frac| > 0
    ensures var t := sign + whole + "." + frac;
      var v := DigitsValue(whole) as real + DigitsValue(frac) as real / Pow10(|frac|) as real;
      NumeralText(t) && Numeral(t) == Some(Num(if sign == "-" then -v else v, false))
  {
    var t := sign + whole + "." + frac;
    DecimalTextParts(sign, whole, frac);
    DecimalParts(whole, frac);
    SignedBody(sign, whole + "." + frac);
    DecimalNumeral(t, sign == "-", whole, frac);
  }

  lemma DecimalTextParts(sign: string, whole: string, frac: string)
    ensures sign + whole + "." + frac == sign + (whole + "." + frac)
  {
  }

  /** What Numeral makes of a text whose stripped body is `w.f`. */
  lemma DecimalNumeral(t: string, neg: bool, whole: string, frac: string)
    requires (|t| > 0 && t[0] == '-') == neg
    requires var body := if |t| > 0 && (t[0] == '+' || t[0] == '-') then t[1..] else t;
      Text.IndexOf(body, '.') == Some(|whole|) && body[..|whole|] == whole && body[|whole| + 1..] == frac
    requires AllDigits(whole) && AllDigits(frac) && |whole| + |frac| > 0
    ensures var v := DigitsValue(whole) as real + DigitsValue(frac) as real / Pow10(|frac|) as real;
      Numeral(t) == Some(Num(if neg then -v else v, false))
  {
  }

  /** Every decimal integer numeral without a leading zero, with an optional sign, denotes its integer. */
  lemma IntegerValue(sign: string, digits: string)
    requires sign == "" || sign == "+" || sign == "-"
    requires digits != [] && AllDigits(digits) && !LeadingZero(digits)
    ensures var t := sign + digits;
      NumeralText(t) && Numeral(t) == Some(Num(if sign == "-" then -(DigitsValue(digits) as real) else DigitsValue(digits) as real, true))
  {
    assert RunChars(digits) && Text.IndexOf(digits, '.') == None by {
      forall i | 0 <= i < |digits| ensures digits[i] != '.' { assert IsDigit(digits[i]); }
    }
    SignedBody(sign, digits);
  }

  /** The digits, the point and the fraction of `w.f`, as Numeral takes them apart. */
  lemma DecimalParts(whole: string, frac: string)
    requires AllDigits(whole) && AllDigits(frac)
    ensures var body := whole + "." + frac;
      RunChars(body) && Text.IndexOf(body, '.') == Some(|whole|) &&
      body[..|whole|] == whole && body[|whole| + 1..] == frac
  {
    var body := whole + "." + frac;
    assert '.' !in whole by {
      forall i | 0 <= i < |whole| ensures whole[i] != '.' { assert IsDigit(whole[i]); }
    }
    Text.IndexOfAfter(whole, '.', frac);
    assert body == whole + ['.'] + frac;
    assert body[..|whole|] == whole && body[|whole| + 1..] == frac;
    assert RunChars(body) by {
      forall i | 0 <= i < |body| ensures IsDigit(body[i]) || body[i] == '.' {
        if i > |whole| { assert body[i] == frac[i - |whole| - 1]; }
        else if i < |whole| { assert body[i] == whole[i]; }
      }
    }
  }

  /** A sign before a run of digits and points: the sign Numeral reads and the body it strips off. */
  lemma SignedBody(sign: string, body: string)
    requires sign == "" || sign == "+" || sign == "-"
    requires body != [] && RunChars(body)
    ensures var t := sign + body;
      NumeralText(t) && (|t| > 0 && t[0] == '-') == (sign == "-") &&
      (if |t| > 0 && (t[0] == '+' || t[0] == '-') then t[1..] else t) == body
  {
    var t := sign + body;
    if sign != "" {
      assert t[0] == sign[0] && t[1..] == body;
    } else {
      assert t == body;
      assert IsDigit(t[0]) || t[0] == '.';
      assert RunChars(t[1..]) by {
        forall i | 0 <= i < |t| - 1 ensures IsDigit(t[1..][i]) || t[1..][i] == '.' { assert t[1..][i] == t[i + 1]; }
      }
    }
  }

  /**
   * Numerals t1, ..., tn (n at least 2) written `(t1, ..., tn)` denote the
   * tuple of their numbers; `focus_color (1, 0, 0)` is one.
   */
  lemma ParseTuple(ts: seq<string>)
    requires |ts| >= 2 && Numerals(ts)
    ensures ParseValue("(" + Text.Join(ts, ", ") + ")") == Some(Tuple(Values(ts)))
  {
    var c := Commas(Singles(ts));
    LexTuple(ts);
    TupleTokens(ts);
    Enclosed(LParen, c, RParen);
    ValueOfTokens("(" + Text.Join(ts, ", ") + ")", [LParen] + c + [RParen]);
  }

  lemma LexTuple(ts: seq<string>)
    requires |ts| >= 2 && Numerals(ts)
    ensures Lex("(" + Text.Join(ts, ", ") + ")") == Some([LParen] + Commas(Singles(ts)) + [RParen])
  {
    LexNumerals(ts);
    LexEnclosed('(', ')', Text.Join(ts, ", "), Commas(Singles(ts)));
  }

  lemma TupleTokens(ts: seq<string>)
    requires |ts| >= 2 && Numerals(ts)
    ensures var c := Commas(Singles(ts)); |c| >= 2 && c[|c| - 1] != Comma
    ensures Parse([LParen] + Commas(Singles(ts)) + [RParen]) == Some(Tuple(Values(ts)))
  {
    var xs := Singles(ts);
    CommasOfNumbers(xs);
    FirstsOfSingles(ts);
    ParseParens(Commas(xs), Values(ts));
  }

  /**
   * A written list denotes the list of its items' elements: numbers for
   * bare numerals, groups for parenthesised runs. `ring_edges [0.2, 0.5]`
   * and `selected_patches [(0, 1, 10), (1, 2, 20)]` are two; `[]` is the empty list.
   */
  lemma ParseList(items: seq<seq<string>>)
    requires forall i :: 0 <= i < |items| ==> |items[i]| > 0 && Numerals(items[i])
    ensures ParseValue(ListText(items)) == Some(List(ListElements(items)))
  {
    if items == [] {
      ParseEmptyListText();
      assert ItemTexts(items) == [] && Text.Join([], ", ") == "";
      assert ListText(items) == "[" + "" + "]";
      assert ListElements(items) == [];
    } else {
      var c := Commas(ItemsTokens(items));
      LexList(items);
      ItemsShape(ItemsTokens(items), items);
      ElementsOfItems(items);
      ParseBrackets(c, ListElements(items));
      Enclosed(LBracket, c, RBracket);
      ValueOfTokens(ListText(items), [LBracket] + c + [RBracket]);
    }
  }

  lemma ParseEmptyListText()
    ensures ParseValue("[" + "" + "]") == Some(List([]))
  {
    assert Lex([]) == Some([]);
    LexEnclosed('[', ']', [], []);
    assert [LBracket] + [] + [RBracket] == [LBracket, RBracket];
    ParseEmptyList();
    ValueOfTokens("[" + "" + "]", [LBracket, RBracket]);
  }

  /** A written list lexes as its item tokens, separated by commas, in brackets. */
  lemma LexList(items: seq<seq<string>>)
    requires |items| > 0 && forall i :: 0 <= i < |items| ==> |items[i]| > 0 && Numerals(items[i])
    ensures Lex(ListText(items)) == Some([LBracket] + Commas(ItemsTokens(items)) + [RBracket])
  {
    LexItems(items);
    LexEnclosed('[', ']', Text.Join(ItemTexts(items), ", "), Commas(ItemsTokens(items)));
  }

  lemma LexItems(items: seq<seq<string>>)
    requires |items| > 0 && forall i :: 0 <= i < |items| ==> |items[i]| > 0 && Numerals(items[i])
    ensures Lex(Text.Join(ItemTexts(items), ", ")) == Some(Commas(ItemsTokens(items)))
  {
    var texts := ItemTexts(items);
    var its := ItemsTokens(items);
    forall i | 0 <= i < |items| ensures Lex(texts[i]) == Some(its[i]) {
      LexItem(items[i]);
    }
    LexJoin(texts, its);
  }

  /** The tokens of each list item. */
  function ItemsTokens(items: seq<seq<string>>): (its: seq<seq<Token>>)
    requires forall i :: 0 <= i < |items| ==> |items[i]| > 0 && Numerals(items[i])
    ensures |its| == |items|
  {
    seq(|items|, i requires 0 <= i < |items| => ItemTokens(Singles(items[i])))
  }

  /** A value whose tokens do not end in a comma denotes what its tokens parse to. */
  lemma ValueOfTokens(text: string, ts: seq<Token>)
    requires Lex(text) == Some(ts) && ts != [] && ts[|ts| - 1] != Comma
    ensures ParseValue(text) == Parse(ts)
  {
  }

  lemma ParseEmptyList()
    ensures Parse([LBracket, RBracket]) == Some(List([]))
  {
    var ts := [LBracket, RBracket];
    assert ts[1..|ts| - 1] == [];
  }

  /** Numbers, not ending in a comma, in parentheses: the tuple of the numbers. */
  lemma ParseParens(c: seq<Token>, v: seq<real>)
    requires |c| >= 2 && c[|c| - 1] != Comma && Numbers(c) == Some(v)
    ensures Parse([LParen] + c + [RParen]) == Some(Tuple(v))
  {
    Enclosed(LParen, c, RParen);
    InParensNumbers(c, v);
  }

  /** List elements, not ending in a comma, in brackets: the list of the elements. */
  lemma ParseBrackets(c: seq<Token>, es: seq<Element>)
    requires c != [] && c[|c| - 1] != Comma && Elements(c) == Some(es)
    ensures Parse([LBracket] + c + [RBracket]) == Some(List(es))
  {
    Enclosed(LBracket, c, RBracket);
  }

  lemma InParensNumbers(c: seq<Token>, v: seq<real>)
    requires |c| >= 2 && c[|c| - 1] != Comma && Numbers(c) == Some(v)
    ensures InParens(c) == Some(Tuple(v))
  {
  }

  lemma Enclosed<T>(p: T, c: seq<T>, q: T)
    ensures var s := [p] + c + [q]; |s| == |c| + 2 && s[0] == p && s[|s| - 1] == q && s[1..|s| - 1] == c
  {
  }

  lemma Framed<T>(p: T, c: seq<T>, q: T, rest: seq<T>)
    ensures var s := [p] + c + [q] + rest; s[0] == p && s[1..|c| + 1] == c
  {
    var s := [p] + c + [q] + rest;
    assert s[1..|c| + 1] == c;
  }

  lemma Assoc<T>(a: seq<T>, b: seq<T>, c: seq<T>)
    ensures a + b + c == a + (b + c)
  {
  }

  lemma FirstsOfSingles(ts: seq<string>)
    requires Numerals(ts)
    ensures Firsts(Singles(ts)) == Values(ts)
  {
  }

  // Token-level facts behind ParseTuple and ParseList.

  /** Token runs separated by commas. */
  function Commas(xs: seq<seq<Token>>): seq<Token>
    decreases |xs|
  {
    if |xs| == 0 then [] else if |xs| == 1 then xs[0] else xs[0] + [Comma] + Commas(xs[1..])
  }

  /** Two token results one after the other. */
  function Cat(a: Option<seq<Token>>, b: Option<seq<Token>>): Option<seq<Token>> {
    if a.Some? && b.Some? then Some(a.value + b.value) else None
  }

  /** One number token per numeral. */
  function Singles(ts: seq<string>): (xs: seq<seq<Token>>)
    requires Numerals(ts)
    ensures |xs| == |ts| && SingleNumbers(xs)
  {
    seq(|ts|, i requires 0 <= i < |ts| => [Numeral(ts[i]).value])
  }

  predicate SingleNumbers(xs: seq<seq<Token>>) {
    forall i :: 0 <= i < |xs| ==> |xs[i]| == 1 && xs[i][0].Num?
  }

  function Firsts(xs: seq<seq<Token>>): seq<real>
    requires SingleNumbers(xs)
  {
    seq(|xs|, i requires 0 <= i < |xs| => xs[i][0].value)
  }

  /** The tokens of a list item: a number alone, or numbers in parentheses. */
  function ItemTokens(xs: seq<seq<Token>>): seq<Token>
    requires |xs| > 0
  {
    if |xs| == 1 then xs[0] else [LParen] + Commas(xs) + [RParen]
  }

  lemma {:induction false} RunLengthAppend(x: string, b: string)
    requires EndsNumeral(b)
    ensures RunLength(x + b) == RunLength(x)
    decreases |x|
  {
    if x == [] {
      assert x + b == b;
    } else {
      assert (x + b)[0] == x[0];
      if IsDigit(x[0]) || x[0] == '.' {
        assert (x + b)[1..] == x[1..] + b;
        RunLengthAppend(x[1..], b);
      }
    }
  }

  lemma NumeralLengthAppend(a: string, b: string)
    requires a != [] && StartsNumeral(a[0]) && EndsNumeral(b)
    ensures NumeralLength(a + b) == NumeralLength(a)
  {
    assert (a + b)[0] == a[0];
    assert (a + b)[1..] == a[1..] + b;
    RunLengthAppend(a, b);
    RunLengthAppend(a[1..], b);
  }

  /** Lexing splits where no numeral can continue. */
  lemma {:induction false} LexAppend(a: string, b: string)
    requires Lex(a).Some? && EndsNumeral(b)
    ensures Lex(a + b) == Cat(Lex(a), Lex(b))
    decreases |a|
  {
    if a == [] {
      assert a + b == b;
      if Lex(b).Some? { assert [] + Lex(b).value == Lex(b).value; }
    } else if a[0] == ' ' || a[0] in "()[]," {
      LexAppend(a[1..], b);
      LexAppendFirst(a, b);
    } else {
      var n := LexAppendSplit(a, b);
      LexAppend(a[n..], b);
      LexAppendNumeral(a, b, n);
    }
  }

  /** One step of LexAppend for a leading space or punctuation character. */
  lemma LexAppendFirst(a: string, b: string)
    requires a != [] && (a[0] == ' ' || a[0] in "()[],") && Lex(a).Some?
    requires Lex(a[1..] + b) == Cat(Lex(a[1..]), Lex(b))
    ensures Lex(a + b) == Cat(Lex(a), Lex(b))
  {
    AppendSlices(a, b, 1);
    if a[0] != ' ' {
      PrependCat(Punctuation(a[0]), Lex(a[1..]), Lex(b));
    }
  }

  lemma AppendSlices(a: string, b: string, n: nat)
    requires 0 < n <= |a|
    ensures (a + b)[0] == a[0] && (a + b)[..n] == a[..n] && (a + b)[n..] == a[n..] + b
  {
  }

  lemma PrependCat(p: Token, x: Option<seq<Token>>, y: Option<seq<Token>>)
    ensures Prepend(p, Cat(x, y)) == Cat(Prepend(p, x), y)
  {
    if x.Some? && y.Some? {
      assert [p] + (x.value + y.value) == [p] + x.value + y.value;
    }
  }

  /** A leading numeral of a reads the same in a + b. */
  lemma LexAppendSplit(a: string, b: string) returns (n: nat)
    requires a != [] && a[0] != ' ' && a[0] !in "()[]," && Lex(a).Some? && EndsNumeral(b)
    ensures StartsNumeral(a[0]) && 1 <= n <= |a| && n == NumeralLength(a) && Numeral(a[..n]).Some?
    ensures Lex(a) == Prepend(Numeral(a[..n]).value, Lex(a[n..]))
  {
    n := NumeralLength(a);
  }

  /** One step of LexAppend for a leading numeral of length n. */
  lemma LexAppendNumeral(a: string, b: string, n: nat)
    requires a != [] && StartsNumeral(a[0]) && a[0] != ' ' && a[0] !in "()[]," && EndsNumeral(b)
    requires 1 <= n <= |a| && n == NumeralLength(a) && Numeral(a[..n]).Some?
    requires Lex(a) == Prepend(Numeral(a[..n]).value, Lex(a[n..]))
    requires Lex(a[n..] + b) == Cat(Lex(a[n..]), Lex(b))
    ensures Lex(a + b) == Cat(Lex(a), Lex(b))
  {
    NumeralLengthAppend(a, b);
    AppendSlices(a, b, n);
    PrependCat(Numeral(a[..n]).value, Lex(a[n..]), Lex(b));
  }

  /** A numeral lexes as its number token. */
  lemma LexNumeral(t: string)
    requires NumeralText(t) && Numeral(t).Some?
    ensures Lex(t) == Some([Numeral(t).value])
  {
    LexNumeralThen(t, []);
    assert t + [] == t;
    assert [Numeral(t).value] + [] == [Numeral(t).value];
  }

  /** Texts joined by `, ` lex as their tokens separated by commas. */
  lemma {:induction false} LexJoin(parts: seq<string>, toks: seq<seq<Token>>)
    requires |parts| == |toks| > 0
    requires forall i :: 0 <= i < |parts| ==> Lex(parts[i]) == Some(toks[i])
    ensures Lex(Text.Join(parts, ", ")) == Some(Commas(toks))
    decreases |parts|
  {
    if |parts| > 1 {
      var rest := Text.Join(parts[1..], ", ");
      LexJoin(parts[1..], toks[1..]);
      var tail := ", " + rest;
      assert tail[0] == ',' && tail[1..] == " " + rest;
      assert (" " + rest)[0] == ' ' && (" " + rest)[1..] == rest;
      assert Lex(tail) == Some([Comma] + Commas(toks[1..]));
      assert parts[0] + ", " + rest == parts[0] + tail;
      LexAppend(parts[0], tail);
      assert toks[0] + ([Comma] + Commas(toks[1..])) == toks[0] + [Comma] + Commas(toks[1..]);
    }
  }

  /** Numerals joined by `, ` lex as their number tokens separated by commas. */
  lemma LexNumerals(ts: seq<string>)
    requires |ts| > 0 && Numerals(ts)
    ensures Lex(Text.Join(ts, ", ")) == Some(Commas(Singles(ts)))
  {
    forall i | 0 <= i < |ts| ensures Lex(ts[i]) == Some(Singles(ts)[i]) {
      LexNumeral(ts[i]);
    }
    LexJoin(ts, Singles(ts));
  }

  /** A text between an opening and a closing bracket lexes inside the two bracket tokens. */
  lemma LexEnclosed(open: char, close: char, x: string, xt: seq<Token>)
    requires open in "([" && close in ")]" && Lex(x) == Some(xt)
    ensures Lex([open] + x + [close]) == Some([Punctuation(open)] + xt + [Punctuation(close)])
  {
    Assoc([open], x, [close]);
    LexPunctuation(open, x + [close]);
    LexSingle(close);
    LexAppend(x, [close]);
    Assoc([Punctuation(open)], xt, [Punctuation(close)]);
  }

  lemma LexSingle(c: char)
    requires c in "()[],"
    ensures Lex([c]) == Some([Punctuation(c)])
  {
    LexPunctuation(c, []);
    assert [c] + [] == [c];
    assert Lex([]) == Some([]);
    assert [Punctuation(c)] + [] == [Punctuation(c)];
  }

  /** A list item lexes as its item tokens. */
  lemma LexItem(ts: seq<string>)
    requires |ts| > 0 && Numerals(ts)
    ensures Lex(ItemText(ts)) == Some(ItemTokens(Singles(ts)))
  {
    if |ts| == 1 {
      LexNumeral(ts[0]);
    } else {
      LexNumerals(ts);
      LexEnclosed('(', ')', Text.Join(ts, ", "), Commas(Singles(ts)));
    }
  }

  /** Numbers separated by commas: their shape, and the numbers they read as. */
  lemma {:induction false} CommasOfNumbers(xs: seq<seq<Token>>)
    requires |xs| > 0 && SingleNumbers(xs)
    ensures var c := Commas(xs); |c| == 2 * |xs| - 1 && c[|c| - 1].Num?
    ensures forall k :: 0 <= k < |Commas(xs)| ==> Commas(xs)[k].Num? || Commas(xs)[k] == Comma
    ensures Numbers(Commas(xs)) == Some(Firsts(xs))
    decreases |xs|
  {
    CommasShape(xs);
    FirstsStep(xs);
    if |xs| > 1 {
      CommasOfNumbers(xs[1..]);
      CommasStep(xs);
      NumbersCons(xs[0][0], Commas(xs[1..]), Firsts(xs[1..]));
    } else {
      assert xs[0] == [xs[0][0]];
      assert Firsts(xs) == [xs[0][0].value] + [];
      assert [xs[0][0].value] + [] == [xs[0][0].value];
      assert Numbers(xs[0]) == Some([xs[0][0].value]);
    }
  }

  lemma {:induction false} CommasShape(xs: seq<seq<Token>>)
    requires |xs| > 0 && SingleNumbers(xs)
    ensures var c := Commas(xs); |c| == 2 * |xs| - 1 && c[|c| - 1].Num?
    ensures forall k :: 0 <= k < |Commas(xs)| ==> Commas(xs)[k].Num? || Commas(xs)[k] == Comma
    decreases |xs|
  {
    if |xs| > 1 {
      var c, rest := Commas(xs), Commas(xs[1..]);
      CommasShape(xs[1..]);
      CommasStep(xs);
      forall k | 0 <= k < |c| ensures c[k].Num? || c[k] == Comma {
        if k >= 2 { assert c[k] == rest[k - 2]; }
      }
      assert c[|c| - 1] == rest[|rest| - 1];
    } else {
      assert xs[0] == [xs[0][0]];
    }
  }

  lemma FirstsStep(xs: seq<seq<Token>>)
    requires |xs| > 0 && SingleNumbers(xs)
    ensures Firsts(xs) == [xs[0][0].value] + Firsts(xs[1..])
  {
  }

  lemma CommasStep(xs: seq<seq<Token>>)
    requires |xs| > 1 && |xs[0]| == 1
    ensures Commas(xs) == [xs[0][0], Comma] + Commas(xs[1..])
  {
    assert xs[0] == [xs[0][0]];
  }

  lemma NumbersCons(n: Token, rest: seq<Token>, v: seq<real>)
    requires n.Num? && Numbers(rest) == Some(v)
    ensures Numbers([n, Comma] + rest) == Some([n.value] + v)
  {
    var ts := [n, Comma] + rest;
    assert ts[0] == n && ts[1] == Comma && ts[2..] == rest;
  }

  lemma {:induction false} FirstRParenAfter(p: seq<Token>, rest: seq<Token>)
    requires RParen !in p
    ensures FirstRParen(p + [RParen] + rest) == Some(|p|)
    decreases |p|
  {
    var ts := p + [RParen] + rest;
    if p != [] {
      assert ts[0] == p[0];
      assert ts[1..] == p[1..] + [RParen] + rest;
      FirstRParenAfter(p[1..], rest);
    }
  }

  /** An item's tokens, followed by anything, read as one list element. */
  lemma ItemOf(xs: seq<seq<Token>>, rest: seq<Token>)
    requires |xs| > 0 && SingleNumbers(xs)
    ensures Item(ItemTokens(xs) + rest) ==
      Some((if |xs| == 1 then Number(xs[0][0].value) else Group(Firsts(xs)), |ItemTokens(xs)|))
  {
    if |xs| > 1 {
      var c := Commas(xs);
      CommasOfNumbers(xs);
      Framed(LParen, c, RParen, rest);
      NoRParen(c);
      FirstRParenAfter([LParen] + c, rest);
      InParensNumbers(c, Firsts(xs));
      ItemOfGroup(c, rest, Firsts(xs));
    } else {
      assert (ItemTokens(xs) + rest)[0] == xs[0][0];
    }
  }

  lemma ItemOfGroup(c: seq<Token>, rest: seq<Token>, v: seq<real>)
    requires var s := [LParen] + c + [RParen] + rest; s[0] == LParen && s[1..|c| + 1] == c
    requires FirstRParen([LParen] + c + [RParen] + rest) == Some(|c| + 1)
    requires InParens(c) == Some(Tuple(v))
    ensures Item([LParen] + c + [RParen] + rest) == Some((Group(v), |c| + 2))
  {
  }

  lemma NoRParen(c: seq<Token>)
    requires forall k :: 0 <= k < |c| ==> c[k].Num? || c[k] == Comma
    ensures RParen !in [LParen] + c
  {
    forall k | 0 <= k < |[LParen] + c| ensures ([LParen] + c)[k] != RParen {
      if k > 0 { assert ([LParen] + c)[k] == c[k - 1]; }
    }
  }

  /** The last token of a run of items is the last token of the last item. */
  lemma {:induction false} CommasLast(xs: seq<seq<Token>>)
    requires |xs| > 0 && forall i :: 0 <= i < |xs| ==> |xs[i]| > 0
    ensures |Commas(xs)| > 0 && Commas(xs)[|Commas(xs)| - 1] == xs[|xs| - 1][|xs[|xs| - 1]| - 1]
    decreases |xs|
  {
    if |xs| > 1 {
      CommasLast(xs[1..]);
    }
  }

  /** The item tokens of a list end in a number or a closing parenthesis, never in a comma. */
  lemma ItemsShape(its: seq<seq<Token>>, items: seq<seq<string>>)
    requires |its| == |items| > 0
    requires forall i :: 0 <= i < |items| ==> |items[i]| > 0 && Numerals(items[i])
    requires forall i :: 0 <= i < |items| ==> its[i] == ItemTokens(Singles(items[i]))
    ensures |Commas(its)| > 0 && Commas(its)[|Commas(its)| - 1] != Comma
  {
    var last := items[|items| - 1];
    assert |ItemTokens(Singles(last))| > 0;
    CommasLast(its);
    if |last| > 1 {
      var t := ItemTokens(Singles(last));
      assert t[|t| - 1] == RParen;
    }
  }

  /** The item tokens of a written list, separated by commas, read as its elements. */
  lemma {:induction false} ElementsOfItems(items: seq<seq<string>>)
    requires |items| > 0 && forall i :: 0 <= i < |items| ==> |items[i]| > 0 && Numerals(items[i])
    ensures Elements(Commas(ItemsTokens(items))) == Some(ListElements(items))
    decreases |items|
  {
    if |items| == 1 {
      ElementsOfItem(items);
    } else {
      ElementsOfItems(items[1..]);
      ElementsOfItemsStep(items);
    }
  }

  lemma ElementsOfItem(items: seq<seq<string>>)
    requires |items| == 1 && |items[0]| > 0 && Numerals(items[0])
    ensures Elements(Commas(ItemsTokens(items))) == Some(ListElements(items))
  {
    var t := ItemsTokens(items)[0];
    ItemOfText(items[0], []);
    assert t + [] == t;
    ElementsOne(t, ItemElement(items[0]));
    assert ListElements(items) == [ItemElement(items[0])];
  }

  /** One more item in front of a list whose elements are known. */
  lemma ElementsOfItemsStep(items: seq<seq<string>>)
    requires |items| > 1 && forall i :: 0 <= i < |items| ==> |items[i]| > 0 && Numerals(items[i])
    requires Elements(Commas(ItemsTokens(items[1..]))) == Some(ListElements(items[1..]))
    ensures Elements(Commas(ItemsTokens(items))) == Some(ListElements(items))
  {
    var t := ItemsTokens(items)[0];
    var rest := Commas(ItemsTokens(items[1..]));
    ItemOfText(items[0], [Comma] + rest);
    Assoc(t, [Comma], rest);
    ItemsTokensStep(items);
    ListElementsStep(items);
    ElementsCons(t, rest, ItemElement(items[0]), ListElements(items[1..]));
  }

  /** A written list item, followed by anything, reads as its element. */
  lemma ItemOfText(ts: seq<string>, rest: seq<Token>)
    requires |ts| > 0 && Numerals(ts)
    ensures Item(ItemTokens(Singles(ts)) + rest) == Some((ItemElement(ts), |ItemTokens(Singles(ts))|))
  {
    FirstsOfSingles(ts);
    ItemOf(Singles(ts), rest);
  }

  lemma ItemsTokensStep(items: seq<seq<string>>)
    requires |items| > 1 && forall i :: 0 <= i < |items| ==> |items[i]| > 0 && Numerals(items[i])
    ensures Commas(ItemsTokens(items)) == ItemsTokens(items)[0] + [Comma] + Commas(ItemsTokens(items[1..]))
  {
    assert ItemsTokens(items)[1..] == ItemsTokens(items[1..]);
  }

  lemma ListElementsStep(items: seq<seq<string>>)
    requires |items| > 1 && forall i :: 0 <= i < |items| ==> |items[i]| > 0 && Numerals(items[i])
    ensures ListElements(items) == [ItemElement(items[0])] + ListElements(items[1..])
  {
  }

  lemma ElementsOne(t: seq<Token>, e: Element)
    requires Item(t) == Some((e, |t|))
    ensures Elements(t) == Some([e])
  {
  }

  lemma ElementsCons(t: seq<Token>, rest: seq<Token>, e: Element, es: seq<Element>)
    requires Item(t + [Comma] + rest) == Some((e, |t|)) && Elements(rest) == Some(es)
    ensures Elements(t + [Comma] + rest) == Some([e] + es)
  {
    var ts := t + [Comma] + rest;
    assert ts[|t|] == Comma && ts[|t| + 1..] == rest;
  }
}
