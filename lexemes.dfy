/**
  * The small lexical pieces the colour and font-size parsers are built from:
  * Python's `int(pair, 16)` on two characters, `float()` on a run of digits and
  * dots, and hand-written matchers for the two colour regular expressions
  *   rgba\((\d+),\s*(\d+),\s*(\d+)(?:,\s*([\d.]+))?\)
  *   rgb\((\d+),\s*(\d+),\s*(\d+)\)
  * applied with `re.match`, that is anchored at the start only.
  */
module Lexemes {
  import opened Text
  import opened Wrappers

  predicate IsHexDigit(c: char) {
    IsDigit(c) || 'a' <= c <= 'f' || 'A' <= c <= 'F'
  }

  function HexValue(c: char): (v: nat)
    requires IsHexDigit(c)
    ensures v < 16
  {
    if IsDigit(c) then DigitValue(c)
    else if 'a' <= c <= 'f' then c as int - 'a' as int + 10
    else c as int - 'A' as int + 10
  }

  /** The lower-case hexadecimal digit for `v`. */
  function HexChar(v: nat): (c: char)
    requires v < 16
    ensures IsHexDigit(c) && HexValue(c) == v && !IsUpper(c) && !IsSpace(c)
  {
    if v < 10 then DigitChar(v) else ('a' as int + v - 10) as char
  }

  /**
    * Python's `int(a + b, 16)`: None where Python raises `ValueError`.
    * Besides two hex digits, Python accepts one digit with surrounding
    * whitespace or a leading sign.
    */
  function HexPair(a: char, b: char): (r: Option<int>)
    ensures r.Some? ==> -15 <= r.value <= 255
    ensures r.Some? <==> ((IsHexDigit(a) || IsSpace(a) || a == '+' || a == '-') && IsHexDigit(b))
                         || (IsHexDigit(a) && IsSpace(b))
    ensures IsHexDigit(a) && IsHexDigit(b) ==> r == Some(16 * HexValue(a) + HexValue(b))
  {
    if IsHexDigit(a) && IsHexDigit(b) then Some(16 * HexValue(a) + HexValue(b))
    else if (IsSpace(a) || a == '+') && IsHexDigit(b) then Some(HexValue(b))
    else if a == '-' && IsHexDigit(b) then Some(-(HexValue(b) as int))
    else if IsHexDigit(a) && IsSpace(b) then Some(HexValue(a))
    else None
  }

  /** The two lower-case hex digits of a byte, as CSS writes them. */
  function HexByte(v: nat): (s: string)
    requires v < 256
    ensures |s| == 2 && HexPair(s[0], s[1]) == Some(v)
  {
    [HexChar(v / 16), HexChar(v % 16)]
  }

  /** Length of the leading run of characters satisfying the class. */
  function RunLength(s: string, digitsOnly: bool): (n: nat)
    ensures n <= |s|
    ensures forall i :: 0 <= i < n ==> InRun(s[i], digitsOnly)
    ensures n < |s| ==> !InRun(s[n], digitsOnly)
  {
    if s == [] || !InRun(s[0], digitsOnly) then 0 else 1 + RunLength(s[1..], digitsOnly)
  }

  /** `\d` when `digitsOnly`, otherwise `[\d.]`. */
  predicate InRun(c: char, digitsOnly: bool) {
    IsDigit(c) || (!digitsOnly && c == '.')
  }

  function SpaceRun(s: string): (n: nat)
    ensures n <= |s|
    ensures forall i :: 0 <= i < n ==> IsSpace(s[i])
    ensures n < |s| ==> !IsSpace(s[n])
  {
    if s == [] || !IsSpace(s[0]) then 0 else 1 + SpaceRun(s[1..])
  }

  lemma {:induction false} RunOfPrefix(d: string, rest: string, digitsOnly: bool)
    requires forall i :: 0 <= i < |d| ==> InRun(d[i], digitsOnly)
    requires rest == [] || !InRun(rest[0], digitsOnly)
    ensures RunLength(d + rest, digitsOnly) == |d|
  {
    if d != [] {
      assert (d + rest)[1..] == d[1..] + rest;
      RunOfPrefix(d[1..], rest, digitsOnly);
    }
  }

  /**
    * `\s*` (when `spaces`) then a non-empty run of the class, then the character
    * `stop`: the run and what follows `stop`.
    */
  function Field(s: string, spaces: bool, digitsOnly: bool, stop: char): (r: Option<(string, string)>)
    ensures r.Some? ==> r.value.0 != [] && forall i :: 0 <= i < |r.value.0| ==> InRun(r.value.0[i], digitsOnly)
    ensures r.Some? ==> |r.value.1| < |s|
  {
    var w := if spaces then SpaceRun(s) else 0;
    var t := s[w..];
    var n := RunLength(t, digitsOnly);
    if 0 < n < |t| && t[n] == stop then Some((t[..n], t[n + 1..])) else None
  }

  /** A field written without padding is read back exactly. */
  lemma FieldOf(d: string, rest: string, spaces: bool, digitsOnly: bool, stop: char)
    requires d != [] && AllDigits(d) && !InRun(stop, digitsOnly)
    ensures Field(d + [stop] + rest, spaces, digitsOnly, stop) == Some((d, rest))
  {
    var s := d + [stop] + rest;
    assert !IsSpace(s[0]);
    assert s == d + ([stop] + rest);
    RunOfPrefix(d, [stop] + rest, digitsOnly);
    assert s[|d| + 1..] == rest;
  }

  /** A field with an alpha lexeme of digits and dots is read back exactly. */
  lemma AlphaFieldOf(d: string, rest: string, stop: char)
    requires d != [] && DigitsAndDots(d) && !InRun(stop, false) && !IsSpace(d[0])
    ensures Field(d + [stop] + rest, true, false, stop) == Some((d, rest))
  {
    var s := d + [stop] + rest;
    assert s == d + ([stop] + rest);
    RunOfPrefix(d, [stop] + rest, false);
    assert s[|d| + 1..] == rest;
  }

  /** The three numbers of `x,y,z` followed by `stop`, as `str(n)` writes them. */
  lemma TripleOf(x: string, y: string, z: string, stop: char, rest: string)
    requires x != [] && y != [] && z != [] && AllDigits(x) && AllDigits(y) && AllDigits(z)
    requires !IsDigit(stop)
    ensures Triple(x + "," + y + "," + z + [stop] + rest, stop) == Some((x, y, z, rest))
  {
    var s := x + "," + y + "," + z + [stop] + rest;
    var s1 := y + "," + z + [stop] + rest;
    var s2 := z + [stop] + rest;
    assert s == x + [','] + s1;
    assert s1 == y + [','] + s2;
    FieldOf(x, s1, false, true, ',');
    FieldOf(y, s2, true, true, ',');
    FieldOf(z, rest, true, true, stop);
  }

  /** The argument text `x,y,z` + `tail` + `)` of a functional colour. */
  function Args(x: string, y: string, z: string, tail: string): string {
    x + "," + y + "," + z + tail + ")"
  }

  lemma MatchRgbOf(x: string, y: string, z: string)
    requires x != [] && y != [] && z != [] && AllDigits(x) && AllDigits(y) && AllDigits(z)
    ensures MatchRgb("rgb(" + Args(x, y, z, [])) == Some(ColourMatch(x, y, z, None))
  {
    var s := "rgb(" + Args(x, y, z, []);
    assert s[4..] == x + "," + y + "," + z + [')'] + [];
    TripleOf(x, y, z, ')', []);
  }

  /** A field that ends in a different character than `stop` does not match. */
  lemma FieldWrongStop(d: string, rest: string, spaces: bool, found: char, stop: char)
    requires d != [] && AllDigits(d) && !IsDigit(found) && found != stop
    ensures Field(d + [found] + rest, spaces, true, stop) == None
  {
    var s := d + [found] + rest;
    assert !IsSpace(s[0]);
    assert s == d + ([found] + rest);
    RunOfPrefix(d, [found] + rest, true);
  }

  lemma TripleWrongStop(x: string, y: string, z: string, found: char, stop: char, rest: string)
    requires x != [] && y != [] && z != [] && AllDigits(x) && AllDigits(y) && AllDigits(z)
    requires !IsDigit(found) && found != stop
    ensures Triple(x + "," + y + "," + z + [found] + rest, stop) == None
  {
    var s := x + "," + y + "," + z + [found] + rest;
    var s1 := y + "," + z + [found] + rest;
    var s2 := z + [found] + rest;
    assert s == x + [','] + s1;
    assert s1 == y + [','] + s2;
    FieldOf(x, s1, false, true, ',');
    FieldOf(y, s2, true, true, ',');
    FieldWrongStop(z, rest, true, found, stop);
  }

  /** `rgba(x,y,z)` matches with no alpha group. */
  lemma MatchRgbaOf(x: string, y: string, z: string)
    requires x != [] && y != [] && z != [] && AllDigits(x) && AllDigits(y) && AllDigits(z)
    ensures MatchRgba("rgba(" + Args(x, y, z, [])) == Some(ColourMatch(x, y, z, None))
  {
    var s := "rgba(" + Args(x, y, z, []);
    var body := x + "," + y + "," + z + [')'] + [];
    assert s[5..] == body;
    assert StartsWith(s, "rgba(");
    TripleWrongStop(x, y, z, ')', ',', []);
    TripleOf(x, y, z, ')', []);
  }

  /** `rgb(...)` never matches the `rgba(` pattern. */
  lemma RgbIsNotRgba(x: string)
    ensures MatchRgba("rgb(" + x) == None
  {
    var s := "rgb(" + x;
    assert s[3] == '(';
    assert !StartsWith(s, "rgba(");
  }

  /** `rgba(x,y,z,al)` matches with `al` as the alpha group. */
  lemma MatchRgbaAlphaOf(x: string, y: string, z: string, al: string)
    requires x != [] && y != [] && z != [] && AllDigits(x) && AllDigits(y) && AllDigits(z)
    requires al != [] && DigitsAndDots(al) && !IsSpace(al[0])
    ensures MatchRgba("rgba(" + Args(x, y, z, "," + al)) == Some(ColourMatch(x, y, z, Some(al)))
  {
    var s := "rgba(" + Args(x, y, z, "," + al);
    var rest := al + [')'] + [];
    var body := x + "," + y + "," + z + [','] + rest;
    assert s[5..] == body;
    assert StartsWith(s, "rgba(");
    TripleOf(x, y, z, ',', rest);
    AlphaFieldOf(al, [], ')');
  }

  /** The groups of a successful `rgb(...)`/`rgba(...)` match. */
  datatype ColourMatch = ColourMatch(red: string, green: string, blue: string, alpha: Option<string>)

  /** The groups of a match are digit strings, and the alpha group digits and dots. */
  predicate WellFormed(m: ColourMatch) {
    AllDigits(m.red) && AllDigits(m.green) && AllDigits(m.blue) &&
    (m.alpha.Some? ==> DigitsAndDots(m.alpha.value))
  }

  /** The three comma-separated integer groups after the opening parenthesis. */
  function Triple(s: string, stop: char): (r: Option<(string, string, string, string)>)
    ensures r.Some? ==> AllDigits(r.value.0) && AllDigits(r.value.1) && AllDigits(r.value.2)
  {
    match Field(s, false, true, ',')
    case None => None
    case Some((red, s1)) =>
      match Field(s1, true, true, ',')
      case None => None
      case Some((green, s2)) =>
        match Field(s2, true, true, stop)
        case None => None
        case Some((blue, rest)) => Some((red, green, blue, rest))
  }

  /** `re.match(r"rgb\((\d+),\s*(\d+),\s*(\d+)\)", s)`. */
  function MatchRgb(s: string): (m: Option<ColourMatch>)
    ensures m.Some? ==> WellFormed(m.value) && m.value.alpha.None?
  {
    if !StartsWith(s, "rgb(") then None
    else match Triple(s[4..], ')')
      case None => None
      case Some((red, green, blue, _)) => Some(ColourMatch(red, green, blue, None))
  }

  /**
    * `re.match(r"rgba\((\d+),\s*(\d+),\s*(\d+)(?:,\s*([\d.]+))?\)", s)`.
    * After the third number the optional group is tried first; when it cannot
    * be completed the regex backtracks and needs `)` right after the number.
    */
  function MatchRgba(s: string): (m: Option<ColourMatch>)
    ensures m.Some? ==> WellFormed(m.value)
  {
    if !StartsWith(s, "rgba(") then None
    else match Triple(s[5..], ',')
      case Some((red, green, blue, rest)) =>
        (match Field(rest, true, false, ')')
         case Some((alpha, _)) => Some(ColourMatch(red, green, blue, Some(alpha)))
         case None => None)
      case None =>
        match Triple(s[5..], ')')
        case Some((red, green, blue, _)) => Some(ColourMatch(red, green, blue, None))
        case None => None
  }

  /** `10^n`. */
  function Pow10(n: nat): (p: nat)
    ensures p >= 1
  {
    if n == 0 then 1 else 10 * Pow10(n - 1)
  }

  /** Index of the first '.', or the length when there is none. */
  function DotIndex(s: string): (k: nat)
    ensures k <= |s| && (k < |s| ==> s[k] == '.')
    ensures forall i :: 0 <= i < k ==> s[i] != '.'
  {
    if s == [] || s[0] == '.' then 0 else 1 + DotIndex(s[1..])
  }

  predicate DigitsAndDots(s: string) {
    forall i :: 0 <= i < |s| ==> InRun(s[i], false)
  }

  /**
    * Python's `float(s)` for a string of digits and dots: it raises (None) unless
    * there is at least one digit and at most one dot.
    */
  function FloatLexeme(s: string): (r: Option<real>)
    requires DigitsAndDots(s)
    ensures r.Some? ==> r.value >= 0.0
    ensures AllDigits(s) && s != [] ==> r == Some(DigitsValue(s) as real)
  {
    var k := DotIndex(s);
    if k == |s| then
      if s == [] then None else Some(DigitsValue(s) as real)
    else
      var whole, frac := s[..k], s[k + 1..];
      if (whole == [] && frac == []) || !AllDigits(frac) then None
      else Some(DigitsValue(whole) as real + DigitsValue(frac) as real / Pow10(|frac|) as real)
  }

  /** Python's `re.sub(r'[^\d.]', '', s)`: keeps only digits and dots. */
  function KeepNumeric(s: string): (r: string)
    ensures DigitsAndDots(r) && |r| <= |s|
    ensures DigitsAndDots(s) ==> r == s
  {
    if s == [] then []
    else if InRun(s[0], false) then [s[0]] + KeepNumeric(s[1..])
    else KeepNumeric(s[1..])
  }
}
