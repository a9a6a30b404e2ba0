/** The decimal subset of Python's `float()` on text: surrounding whitespace,
    an optional sign, digits with an optional fraction. A text in this form
    is a `Literal`; `Recognise` and `Render` convert between the two. */
module Numbers {
  import opened Options
  import opened Strings

  predicate IsDigit(c: char) {
    '0' <= c <= '9'
  }

  predicate AllDigits(s: string) {
    forall i :: 0 <= i < |s| ==> IsDigit(s[i])
  }

  datatype Sign = Unsigned | Plus | Minus

  /** A decimal literal: `whole` digits, then `.` and `frac` digits when
      `point` is set ("5", "5.", "5.25", ".25", each with an optional sign). */
  datatype Literal = Literal(sign: Sign, whole: string, point: bool, frac: string)

  predicate WellFormed(lit: Literal) {
    && AllDigits(lit.whole)
    && AllDigits(lit.frac)
    && |lit.whole| + |lit.frac| > 0
    && (!lit.point ==> lit.frac == [])
  }

  function SignText(sign: Sign): string {
    match sign
    case Unsigned => ""
    case Plus => "+"
    case Minus => "-"
  }

  /** The literal without its sign. */
  function Magnitude(lit: Literal): string {
    lit.whole + (if lit.point then "." + lit.frac else "")
  }

  function Render(lit: Literal): string {
    SignText(lit.sign) + Magnitude(lit)
  }

  function DigitsValue(s: string): nat
    requires AllDigits(s)
  {
    if s == [] then 0 else DigitsValue(s[..|s| - 1]) * 10 + (s[|s| - 1] as int - '0' as int)
  }

  function Pow10(n: nat): (r: nat)
    ensures r >= 1
  {
    if n == 0 then 1 else 10 * Pow10(n - 1)
  }

  /** The number a well-formed literal denotes. */
  function Value(lit: Literal): real
    requires WellFormed(lit)
  {
    var magnitude := DigitsValue(lit.whole) as real + DigitsValue(lit.frac) as real / Pow10(|lit.frac|) as real;
    if lit.sign == Minus then -magnitude else magnitude
  }

  /** The position of the first `c` in `s`, if any. */
  function IndexOf(s: string, c: char): (r: Option<nat>)
    ensures r.None? <==> c !in s
    ensures r.Some? ==> r.value < |s| && s[r.value] == c && c !in s[..r.value]
  {
    if s == [] then None
    else if s[0] == c then Some(0)
    else
      match IndexOf(s[1..], c)
      case None => None
      case Some(i) => assert s[..i + 1] == [s[0]] + s[1..][..i]; Some(i + 1)
  }

  /** The sign a stripped text starts with, if any. */
  function SignOf(t: string): (sign: Sign)
    ensures StartsWith(t, SignText(sign))
    ensures sign == Unsigned ==> t == [] || (t[0] != '+' && t[0] != '-')
  {
    if |t| > 0 && t[0] == '+' then Plus else if |t| > 0 && t[0] == '-' then Minus else Unsigned
  }

  /** Reads an unsigned text as the magnitude of a literal with the given sign. */
  function RecogniseMagnitude(sign: Sign, body: string): (r: Option<Literal>)
    ensures r.Some? ==> WellFormed(r.value) && r.value.sign == sign && Magnitude(r.value) == body
  {
    match IndexOf(body, '.')
    case None =>
      if body != [] && AllDigits(body) then Some(Literal(sign, body, false, [])) else None
    case Some(i) =>
      var whole, frac := body[..i], body[i + 1..];
      assert body == whole + "." + frac;
      if AllDigits(whole) && AllDigits(frac) && |whole| + |frac| > 0
      then Some(Literal(sign, whole, true, frac))
      else None
  }

  /** Reads a text that has already been stripped as a literal. Whatever it
      accepts is well formed and renders back to the very same text. */
  function Recognise(t: string): (r: Option<Literal>)
    ensures r.Some? ==> WellFormed(r.value) && Render(r.value) == t
  {
    var sign := SignOf(t);
    assert t == SignText(sign) + t[|SignText(sign)|..];
    RecogniseMagnitude(sign, t[|SignText(sign)|..])
  }

  /** Every well-formed literal is read back as itself. */
  lemma RenderRecognise(lit: Literal)
    requires WellFormed(lit)
    ensures Recognise(Render(lit)) == Some(lit)
  {
    var t := Render(lit);
    var body := Magnitude(lit);
    assert body[0] == '.' || IsDigit(body[0]) by {
      if lit.whole != [] { assert body[0] == lit.whole[0]; }
    }
    assert SignOf(t) == lit.sign by {
      if lit.sign == Unsigned { assert t == body; }
    }
    assert t[|SignText(lit.sign)|..] == body;
    MagnitudeRecognise(lit);
  }

  /** The unsigned part of a well-formed literal is read back as itself. */
  lemma MagnitudeRecognise(lit: Literal)
    requires WellFormed(lit)
    ensures RecogniseMagnitude(lit.sign, Magnitude(lit)) == Some(lit)
  {
    var body := Magnitude(lit);
    assert '.' !in lit.whole by {
      forall i | 0 <= i < |lit.whole| ensures lit.whole[i] != '.' {
        assert IsDigit(lit.whole[i]);
      }
    }
    if lit.point {
      assert body[|lit.whole|] == '.';
      assert body[..|lit.whole|] == lit.whole;
      assert IndexOf(body, '.') == Some(|lit.whole|);
      assert body[|lit.whole| + 1..] == lit.frac;
    } else {
      assert body == lit.whole;
      assert IndexOf(body, '.') == None;
    }
  }

  // ---------------------------------------------------------------------
  // The whitespace around a number

  /** The whitespace `float()` skips around a number. It turns every
      non-ASCII character of the `str.isspace` set into a space and then
      strips ASCII whitespace only, so the separators U+001C to U+001F, which
      `str.isspace` accepts, stay in the text and make it no number. */
  predicate FloatSpace(c: char) {
    IsSpace(c) && !(0x1C <= c as int <= 0x1F)
  }

  predicate AllFloatSpace(s: string) {
    forall i :: 0 <= i < |s| ==> FloatSpace(s[i])
  }

  /** The suffix of `s` left once the leading float whitespace is gone. */
  function FloatTrimLeft(s: string): (r: string)
    ensures |r| <= |s| && r == s[|s| - |r|..]
    ensures AllFloatSpace(s[..|s| - |r|])
    ensures r == [] || !FloatSpace(r[0])
  {
    if |s| > 0 && FloatSpace(s[0]) then
      var r := FloatTrimLeft(s[1..]);
      assert s[..|s| - |r|] == [s[0]] + s[1..][..|s| - 1 - |r|];
      r
    else s
  }

  /** The prefix of `s` left once the trailing float whitespace is gone. */
  function FloatTrimRight(s: string): (r: string)
    ensures |r| <= |s| && r == s[..|r|]
    ensures AllFloatSpace(s[|r|..])
    ensures r == [] || !FloatSpace(r[|r| - 1])
  {
    if |s| > 0 && FloatSpace(s[|s| - 1]) then
      var r := FloatTrimRight(s[..|s| - 1]);
      assert s[|r|..] == s[..|s| - 1][|r|..] + [s[|s| - 1]];
      r
    else s
  }

  /** The text `float()` converts: `s` without the float whitespace at
      either end. */
  function FloatStrip(s: string): (r: string)
    ensures |r| <= |s|
    ensures r == [] || (!FloatSpace(r[0]) && !FloatSpace(r[|r| - 1]))
    ensures r == [] <==> AllFloatSpace(s)
  {
    var t := FloatTrimLeft(s);
    var r := FloatTrimRight(t);
    assert r == [] ==> AllFloatSpace(s) by {
      if r == [] {
        assert s == s[..|s| - |t|] + t;
      }
    }
    r
  }

  /** A text that does not start with float whitespace keeps its first
      character. */
  lemma FloatStripKeepsFirst(s: string)
    requires |s| > 0 && !FloatSpace(s[0])
    ensures |FloatStrip(s)| > 0 && FloatStrip(s)[0] == s[0]
  {
    assert FloatTrimLeft(s) == s;
  }

  /** Float whitespace on either side of a text that has none at its ends is
      exactly what `FloatStrip` removes. */
  lemma FloatStripPadded(lead: string, t: string, trail: string)
    requires AllFloatSpace(lead) && AllFloatSpace(trail)
    requires t == [] || (!FloatSpace(t[0]) && !FloatSpace(t[|t| - 1]))
    requires t != [] || trail == []
    ensures FloatStrip(lead + t + trail) == t
  {
    assert lead + t + trail == lead + (t + trail);
    FloatTrimLeftPadded(lead, t + trail);
    FloatTrimRightPadded(t, trail);
    assert FloatStrip(lead + t + trail) == FloatTrimRight(FloatTrimLeft(lead + (t + trail)));
  }

  lemma {:induction false} FloatTrimLeftPadded(lead: string, u: string)
    requires AllFloatSpace(lead)
    requires u == [] || !FloatSpace(u[0])
    ensures FloatTrimLeft(lead + u) == u
  {
    if lead != [] {
      assert (lead + u)[1..] == lead[1..] + u;
      FloatTrimLeftPadded(lead[1..], u);
    }
  }

  lemma {:induction false} FloatTrimRightPadded(t: string, trail: string)
    requires AllFloatSpace(trail)
    requires t == [] || !FloatSpace(t[|t| - 1])
    ensures FloatTrimRight(t + trail) == t
  {
    if trail != [] {
      assert (t + trail)[..|t + trail| - 1] == t + trail[..|trail| - 1];
      FloatTrimRightPadded(t, trail[..|trail| - 1]);
    }
  }

  // ---------------------------------------------------------------------
  // `float()`

  /** `float(s)` for the texts this model covers. */
  function ParseFloat(s: string): (r: Option<real>)
    ensures r.Some? ==> exists lit :: WellFormed(lit) && Render(lit) == FloatStrip(s) && r.value == Value(lit)
  {
    match Recognise(FloatStrip(s))
    case None => None
    case Some(lit) => Some(Value(lit))
  }

  /** A text whose first character is neither float whitespace nor part of
      a number is not a number. */
  lemma NotANumber(s: string)
    requires |s| > 0 && !FloatSpace(s[0]) && !NumberChar(s[0])
    ensures ParseFloat(s) == None
  {
    FloatStripKeepsFirst(s);
    match Recognise(FloatStrip(s))
    case None =>
    case Some(lit) =>
      RenderChars(lit);
      assert false;
  }

  /** A text starting with one of the separators U+001C to U+001F is not a
      number, although `str.isspace` holds for them. */
  lemma SeparatorIsNoSpace(s: string)
    requires |s| > 0 && 0x1C <= s[0] as int <= 0x1F
    ensures IsSpace(s[0])
    ensures ParseFloat(s) == None
  {
    NotANumber(s);
  }

  /** A literal with float whitespace around it converts to its own value. */
  lemma ParseFloatPadded(lead: string, lit: Literal, trail: string)
    requires WellFormed(lit) && AllFloatSpace(lead) && AllFloatSpace(trail)
    ensures ParseFloat(lead + Render(lit) + trail) == Some(Value(lit))
  {
    var t := Render(lit);
    RenderEnds(lit);
    FloatStripPadded(lead, t, trail);
    RenderRecognise(lit);
  }

  /** The characters a rendered literal is made of. */
  predicate NumberChar(c: char) {
    IsDigit(c) || c == '+' || c == '-' || c == '.'
  }

  lemma RenderChars(lit: Literal)
    requires WellFormed(lit)
    ensures forall i :: 0 <= i < |Render(lit)| ==> NumberChar(Render(lit)[i])
  {
    var t := Render(lit);
    var n := |SignText(lit.sign)|;
    forall i | 0 <= i < |t| ensures NumberChar(t[i]) {
      if i < n {
      } else if i < n + |lit.whole| {
        assert t[i] == lit.whole[i - n];
      } else if i == n + |lit.whole| {
      } else {
        assert t[i] == lit.frac[i - n - |lit.whole| - 1];
      }
    }
  }

  /** A rendered literal starts and ends with a character that is not
      whitespace. */
  lemma RenderEnds(lit: Literal)
    requires WellFormed(lit)
    ensures |Render(lit)| > 0
    ensures !IsSpace(Render(lit)[0]) && !IsSpace(Render(lit)[|Render(lit)| - 1])
  {
    var t := Render(lit);
    var tail := if lit.point then "." + lit.frac else "";
    assert t == SignText(lit.sign) + lit.whole + tail;
    if lit.whole != [] { assert IsDigit(lit.whole[0]) && IsDigit(lit.whole[|lit.whole| - 1]); }
    if lit.frac != [] { assert IsDigit(lit.frac[|lit.frac| - 1]); }
    if tail != [] { assert t[|t| - 1] == tail[|tail| - 1]; }
  }
}
