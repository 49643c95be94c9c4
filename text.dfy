/**
 * Character classes as the application's regular expressions use them, the
 * maximal runs a greedy `X*` consumes, ASCII lower-casing, and Python's
 * `float()` on the numeral texts those expressions capture.
 */
module Text {
  import opened Wrappers

  /** `≤` and `≥`, the relation symbols the normaliser introduces. */
  const LessEq: char := '\U{2264}'
  const GreaterEq: char := '\U{2265}'

  /** `\d`, restricted to ASCII. */
  predicate IsDigit(c: char) { '0' <= c <= '9' }

  /** `[a-zA-Z]`. */
  predicate IsLetter(c: char) { 'a' <= c <= 'z' || 'A' <= c <= 'Z' }

  /** `\w`, restricted to ASCII: letters, digits and underscore. */
  predicate IsWordChar(c: char) { IsLetter(c) || IsDigit(c) || c == '_' }

  /** `[\+\-]`. */
  predicate IsSign(c: char) { c == '+' || c == '-' }
  /** `\s`, restricted to six ASCII characters: space, tab, newline, carriage return, form feed, vertical tab. */
  /** `\s`, restricted to ASCII: space, tab, newline, carriage return, form feed, vertical tab. */
  predicate IsSpace(c: char) {
    c == ' ' || c == '\t' || c == '\n' || c == '\r' || c == '\U{000C}' || c == '\U{000B}'
  }

  /** `[:\s]`, the separator after the objective keyword. */
  predicate IsSeparator(c: char) { c == ':' || IsSpace(c) }

  /** `[≤≥=]`. */
  predicate IsRelation(c: char) { c == LessEq || c == GreaterEq || c == '=' }

  datatype CharClass = Digit | Word | Space | Separator

  predicate InClass(c: char, k: CharClass) {
    match k
    case Digit => IsDigit(c)
    case Word => IsWordChar(c)
    case Space => IsSpace(c)
    case Separator => IsSeparator(c)
  }

  predicate AllIn(t: string, k: CharClass) {
    forall m :: 0 <= m < |t| ==> InClass(t[m], k)
  }

  /** Where a greedy `k*` that starts at `j` stops: the end of the longest run of class `k`. */
  function RunEnd(s: string, j: nat, k: CharClass): (e: nat)
    requires j <= |s|
    ensures j <= e <= |s|
    ensures forall m {:trigger InClass(s[m], k)} :: j <= m < e ==> InClass(s[m], k)
    ensures e == |s| || !InClass(s[e], k)
    decreases |s| - j
  {
    if j < |s| && InClass(s[j], k) then RunEnd(s, j + 1, k) else j
  }

  /** A run is as long as any stretch of class-`k` characters that starts where it starts. */
  lemma RunCovers(s: string, j: nat, k: CharClass, n: nat)
    requires j + n <= |s|
    requires forall m {:trigger InClass(s[m], k)} :: j <= m < j + n ==> InClass(s[m], k)
    ensures j + n <= RunEnd(s, j, k)
  {
    var e := RunEnd(s, j, k);
    assert e < |s| ==> !InClass(s[e], k);
  }

  /** The run ends exactly where a class-`k` stretch is followed by a character outside `k`. */
  lemma RunStops(s: string, j: nat, k: CharClass, n: nat)
    requires j + n <= |s|
    requires forall m {:trigger InClass(s[m], k)} :: j <= m < j + n ==> InClass(s[m], k)
    requires j + n == |s| || !InClass(s[j + n], k)
    ensures RunEnd(s, j, k) == j + n
  {
    RunCovers(s, j, k, n);
  }

  /** The value of a decimal digit string (empty string: 0). */
  function DigitsValue(t: string): (v: nat)
    requires AllIn(t, Digit)
    ensures t == [] ==> v == 0
  {
    if t == [] then 0 else 10 * DigitsValue(t[..|t| - 1]) + (t[|t| - 1] as int - '0' as int)
  }

  /** `v` divided by ten `places` times: the value of a fraction with `places` digits. */
  function Shifted(v: real, places: nat): (r: real)
    ensures v >= 0.0 ==> r >= 0.0
  {
    if places == 0 then v else Shifted(v, places - 1) / 10.0
  }

  /** ASCII `str.lower()`. */
  function LowerChar(c: char): char {
    if 'A' <= c <= 'Z' then (c as int - 'A' as int + 'a' as int) as char else c
  }

  function Lower(t: string): (r: string)
    ensures |r| == |t|
    ensures forall m :: 0 <= m < |t| ==> r[m] == LowerChar(t[m])
  {
    if t == [] then [] else [LowerChar(t[0])] + Lower(t[1..])
  }

  /**
   * Python `float(t)` for a text of the shape `[+-]?\d*(\.\d*)?`, the only shape
   * the application's patterns hand to it: the value when the text holds at
   * least one digit, `None` (float raises ValueError) otherwise.
   */
  function FloatValue(t: string): (r: Option<real>)
  {
    var signed := |t| > 0 && IsSign(t[0]);
    var body := if signed then t[1..] else t;
    match Magnitude(body)
    case None => None
    case Some(m) => Some(if signed && t[0] == '-' then -m else m)
  }

  /**
   * What a left-to-right reading of digits and at most one point has seen:
   * the whole digits' value, the fraction digits' value and count, whether
   * the point came, whether any digit came.
   */
  datatype Decimal = Decimal(whole: nat, fraction: nat, places: nat, point: bool, digits: bool)

  /** The reading of `b`, `None` once a character other than a digit or a first point comes. */
  function Reading(b: string): Option<Decimal> {
    if b == [] then Some(Decimal(0, 0, 0, false, false))
    else
      match Reading(b[..|b| - 1])
      case None => None
      case Some(d) =>
        var c := b[|b| - 1];
        if IsDigit(c) then
          var v := c as int - '0' as int;
          if d.point then Some(d.(fraction := 10 * d.fraction + v, places := d.places + 1, digits := true))
          else Some(d.(whole := 10 * d.whole + v, digits := true))
        else if c == '.' && !d.point then Some(d.(point := true))
        else None
  }

  /** The unsigned part: digits, optionally a point and more digits, one digit at least. */
  function Magnitude(b: string): (r: Option<real>)
    ensures r.Some? ==> r.value >= 0.0
  {
    match Reading(b)
    case Some(d) => if d.digits then Some(d.whole as real + Shifted(d.fraction as real, d.places)) else None
    case None => None
  }

  /** A digit string reads as its value, before any point. */
  lemma {:induction false} ReadingOfDigits(ds: string)
    requires AllIn(ds, Digit)
    ensures Reading(ds) == Some(Decimal(DigitsValue(ds), 0, 0, false, ds != []))
  {
    if ds != [] {
      var front := ds[..|ds| - 1];
      assert InClass(ds[|ds| - 1], Digit);
      assert forall m :: 0 <= m < |front| ==> front[m] == ds[m];
      ReadingOfDigits(front);
    }
  }

  /** Digits, a point and digits read as the whole value, the fraction value and the fraction's length. */
  lemma {:induction false} ReadingOfFraction(b: string, w: nat)
    requires w < |b| && b[w] == '.'
    requires AllIn(b[..w], Digit) && AllIn(b[w + 1..], Digit)
    ensures Reading(b) == Some(Decimal(DigitsValue(b[..w]), DigitsValue(b[w + 1..]), |b| - w - 1, true, w > 0 || w + 1 < |b|))
    decreases |b|
  {
    var front := b[..|b| - 1];
    if |b| == w + 1 {
      assert front == b[..w];
      ReadingOfDigits(front);
    } else {
      assert front[..w] == b[..w];
      assert front[w + 1..] == b[w + 1..][..|b| - w - 2];
      assert InClass(b[w + 1..][|b| - w - 2], Digit);
      var fraction, rest := b[w + 1..], front[w + 1..];
      forall m | 0 <= m < |rest| ensures InClass(rest[m], Digit) {
        assert rest[m] == fraction[m];
      }
      ReadingOfFraction(front, w);
    }
  }

  /** Without a sign float() reads the whole text as the magnitude. */
  lemma FloatUnsigned(b: string, m: real)
    requires |b| > 0 && !IsSign(b[0]) && Magnitude(b) == Some(m)
    ensures FloatValue(b) == Some(m)
  {
  }

  /** After a minus sign float() negates the magnitude of the rest. */
  lemma FloatAfterMinus(s: string, i: nat, j: nat, m: real)
    requires i < j <= |s| && s[i] == '-' && Magnitude(s[i + 1..j]) == Some(m)
    ensures FloatValue(s[i..j]) == Some(-m)
  {
    assert s[i..j][1..] == s[i + 1..j];
  }

  /** On a digit string float() yields its integer value, and with a sign the signed value. */
  lemma FloatOfInteger(sign: string, ds: string)
    requires sign == "" || sign == "+" || sign == "-"
    requires AllIn(ds, Digit) && ds != []
    ensures FloatValue(sign + ds) == Some(if sign == "-" then -(DigitsValue(ds) as real) else DigitsValue(ds) as real)
  {
    var t := sign + ds;
    ReadingOfDigits(ds);
    assert InClass(ds[0], Digit);
    if sign == "" {
      assert t == ds;
    } else {
      assert t[1..] == ds;
    }
  }
}
