/**
  * Colour parsing, alpha blending and the effective-background walk of the
  * current analyzer (v4/ui_benchmark_analyzer.py).  The browser is replaced by
  * its observations: the document's computed background string and the chain
  * of (tag, computed background) pairs from the element outward, as far as the
  * walk could read it.
  */
module ColourV4 {
  import opened Text
  import opened Wrappers
  import opened Lexemes

  /** A colour with alpha, the 4-tuple `(r, g, b, a)`. Channels are whatever the text said. */
  datatype Rgba = Rgba(r: int, g: int, b: int, a: real) {
    function Opaque(): Rgb { Rgb(r, g, b) }
  }

  /** The 3-tuple `(r, g, b)`. */
  datatype Rgb = Rgb(r: int, g: int, b: int)

  /** What `parse_color_string_to_rgb_tuple` does: a tuple, `None`, or a `ValueError`. */
  datatype Parsed = Colour(c: Rgba) | NoColour | ParseError

  const White := Rgb(255, 255, 255)

  function Named(s: string): Option<Rgba> {
    if s == "white" then Some(Rgba(255, 255, 255, 1.0))
    else if s == "black" then Some(Rgba(0, 0, 0, 1.0))
    else if s == "red" then Some(Rgba(255, 0, 0, 1.0))
    else if s == "green" then Some(Rgba(0, 128, 0, 1.0))
    else if s == "blue" then Some(Rgba(0, 0, 255, 1.0))
    else None
  }

  /**
    * The `#...` branch for `h`, the text after '#': None when its length is not
    * 3, 6 or 8, so that parsing goes on with the regular expressions.
    */
  function ParseHex(h: string): Option<Parsed> {
    if |h| == 3 then
      var r, g, b := HexPair(h[0], h[0]), HexPair(h[1], h[1]), HexPair(h[2], h[2]);
      if r.None? || g.None? || b.None? then Some(ParseError)
      else Some(Colour(Rgba(r.value, g.value, b.value, 1.0)))
    else if |h| == 6 || |h| == 8 then
      var r, g, b := HexPair(h[0], h[1]), HexPair(h[2], h[3]), HexPair(h[4], h[5]);
      if r.None? || g.None? || b.None? then Some(ParseError)
      else if |h| == 6 then Some(Colour(Rgba(r.value, g.value, b.value, 1.0)))
      else
        var a := HexPair(h[6], h[7]);
        if a.None? then Some(ParseError)
        else if a.value == 0 then Some(NoColour)
        else Some(Colour(Rgba(r.value, g.value, b.value, a.value as real / 255.0)))
    else None
  }

  /** The `rgba(...)` and `rgb(...)` branches, tried in that order, then the named colours. */
  function ParseFunctional(c: string): Parsed {
    match MatchRgba(c)
    case Some(m) =>
      var a := if m.alpha.None? then Some(1.0) else FloatLexeme(m.alpha.value);
      if a.None? then ParseError
      else if a.value == 0.0 then NoColour
      else Colour(Rgba(DigitsValue(m.red), DigitsValue(m.green), DigitsValue(m.blue), a.value))
    case None =>
      match MatchRgb(c)
      case Some(m) => Colour(Rgba(DigitsValue(m.red), DigitsValue(m.green), DigitsValue(m.blue), 1.0))
      case None => if Named(c).Some? then Colour(Named(c).value) else NoColour
  }

  /**
    * `parse_color_string_to_rgb_tuple`. A colour it returns never has alpha 0,
    * and `#rgb`, `#rrggbb`, `rgb()` and the named colours are always opaque.
    */
  function ParseColor(s: string): (p: Parsed)
    ensures p.Colour? ==> p.c.a != 0.0
    ensures s == [] || Strip(Lower(s)) == "transparent" ==> p == NoColour
  {
    if s == [] then NoColour else ParseNormal(Strip(Lower(s)))
  }

  /** The parser after `lower().strip()`. */
  function ParseNormal(c: string): (p: Parsed)
    ensures p.Colour? ==> p.c.a != 0.0
  {
    if c == "transparent" then NoColour
    else if StartsWith(c, "#") && ParseHex(c[1..]).Some? then ParseHex(c[1..]).value
    else ParseFunctional(c)
  }

  /** Parsing ignores case and surrounding whitespace. */
  lemma ParseNormalizes(s: string)
    ensures ParseColor(s) == ParseColor(Strip(Lower(s)))
  {
    var c := Strip(Lower(s));
    if c == [] {
      assert MatchRgba(c) == None && MatchRgb(c) == None;
    } else if s != [] {
      NormalizeIdempotent(s);
    }
  }

  /** For a string in normal form the parser skips normalisation. */
  lemma NormalParse(s: string)
    requires Strip(Lower(s)) == s && s != []
    ensures ParseColor(s) == ParseNormal(s)
  {
  }

  /** A normal-form `#` string with 3, 6 or 8 characters after it is read by the hex branch. */
  lemma HexNormal(s: string)
    requires IsLowerCase(s) && |s| > 1 && s[0] == '#' && !IsSpace(s[|s| - 1]) && ParseHex(s[1..]).Some?
    ensures ParseColor(s) == ParseHex(s[1..]).value
  {
    NormalFormFixed(s);
    NormalParse(s);
    assert s != "transparent" by { assert "transparent"[0] == 't'; }
    assert StartsWith(s, "#") by { assert s[..1] == "#"; }
  }

  /** `#rrggbb` reads the three bytes, opaque. */
  lemma ParseHexLong(r: nat, g: nat, b: nat)
    requires r < 256 && g < 256 && b < 256
    ensures ParseColor("#" + HexByte(r) + HexByte(g) + HexByte(b)) == Colour(Rgba(r, g, b, 1.0))
  {
    var s := "#" + HexByte(r) + HexByte(g) + HexByte(b);
    assert IsLowerCase(s);
    assert s[1..] == HexByte(r) + HexByte(g) + HexByte(b);
    HexNormal(s);
  }

  /** `#rgb` doubles each digit: `#f0a` is `#ff00aa`. */
  lemma ParseHexShort(r: nat, g: nat, b: nat)
    requires r < 16 && g < 16 && b < 16
    ensures ParseColor(['#', HexChar(r), HexChar(g), HexChar(b)]) == Colour(Rgba(17 * r, 17 * g, 17 * b, 1.0))
  {
    var s := ['#', HexChar(r), HexChar(g), HexChar(b)];
    assert IsLowerCase(s);
    assert s[1..] == [HexChar(r), HexChar(g), HexChar(b)];
    ShortDigits(r, g, b);
    HexNormal(s);
  }

  /** Three hex digits, each doubled, give the opaque colour of the doubled bytes. */
  lemma ShortDigits(r: nat, g: nat, b: nat)
    requires r < 16 && g < 16 && b < 16
    ensures ParseHex([HexChar(r), HexChar(g), HexChar(b)]) == Some(Colour(Rgba(17 * r, 17 * g, 17 * b, 1.0)))
  {
    var h := [HexChar(r), HexChar(g), HexChar(b)];
    assert HexPair(h[0], h[0]) == Some(17 * r);
    assert HexPair(h[1], h[1]) == Some(17 * g);
    assert HexPair(h[2], h[2]) == Some(17 * b);
  }

  /** `#rrggbbaa` reads alpha as `aa / 255`; an alpha byte of `00` gives no colour. */
  lemma ParseHexAlpha(r: nat, g: nat, b: nat, a: nat)
    requires r < 256 && g < 256 && b < 256 && a < 256
    ensures ParseColor("#" + HexByte(r) + HexByte(g) + HexByte(b) + HexByte(a))
            == if a == 0 then NoColour else Colour(Rgba(r, g, b, a as real / 255.0))
  {
    var s := "#" + HexByte(r) + HexByte(g) + HexByte(b) + HexByte(a);
    assert IsLowerCase(s);
    assert s[1..] == HexByte(r) + HexByte(g) + HexByte(b) + HexByte(a);
    HexNormal(s);
  }

  lemma DecimalLowerCase(n: nat)
    ensures IsLowerCase(Decimal(n)) && !IsSpace(Decimal(n)[0]) && Decimal(n) != []
  {
  }

  /** The text of three numbers and a closing parenthesis, as the browser writes them. */
  function Channels(r: nat, g: nat, b: nat, tail: string): string {
    Args(Decimal(r), Decimal(g), Decimal(b), tail)
  }

  lemma ChannelsLowerCase(r: nat, g: nat, b: nat, tail: string)
    requires IsLowerCase(tail)
    ensures var t := Channels(r, g, b, tail); IsLowerCase(t) && t != [] && t[|t| - 1] == ')'
  {
    DecimalLowerCase(r);
    DecimalLowerCase(g);
    DecimalLowerCase(b);
  }

  /** A functional colour `name(` + text, already in normal form, parses without normalising. */
  lemma FunctionalNormal(name: string, t: string)
    requires name == "rgb(" || name == "rgba("
    requires IsLowerCase(t) && t != [] && t[|t| - 1] == ')'
    ensures ParseColor(name + t) == ParseFunctional(name + t)
  {
    var s := name + t;
    FunctionalText(name, t);
    NormalFormFixed(s);
    NormalParse(s);
    NormalFunctional(s);
  }

  lemma FunctionalText(name: string, t: string)
    requires name == "rgb(" || name == "rgba("
    requires IsLowerCase(t) && t != [] && t[|t| - 1] == ')'
    ensures var s := name + t; IsLowerCase(s) && s != [] && s[0] == 'r' && !IsSpace(s[0]) && !IsSpace(s[|s| - 1])
  {
    var s := name + t;
    assert s[0] == 'r';
    assert s[|s| - 1] == ')';
    assert IsLowerCase(name);
    assert forall i :: 0 <= i < |s| ==> s[i] == if i < |name| then name[i] else t[i - |name|];
  }

  /** What does not start with `t` or `#` goes straight to the functional forms. */
  lemma NormalFunctional(s: string)
    requires s != [] && s[0] != 't' && s[0] != '#'
    ensures ParseNormal(s) == ParseFunctional(s)
  {
    assert s != "transparent" by { assert "transparent"[0] == 't'; }
    assert !StartsWith(s, "#") by { assert s[..1] != "#"; }
  }

  /** `rgb(r,g,b)` is read back as the opaque colour `(r, g, b)`. */
  lemma ParseRgb(r: nat, g: nat, b: nat)
    ensures ParseColor("rgb(" + Channels(r, g, b, [])) == Colour(Rgba(r, g, b, 1.0))
  {
    var t := Channels(r, g, b, []);
    ChannelsLowerCase(r, g, b, []);
    FunctionalNormal("rgb(", t);
    RgbIsNotRgba(t);
    DecimalLowerCase(r);
    DecimalLowerCase(g);
    DecimalLowerCase(b);
    MatchRgbOf(Decimal(r), Decimal(g), Decimal(b));
    DecimalRoundTrip(r);
    DecimalRoundTrip(g);
    DecimalRoundTrip(b);
  }

  /** `rgba(r,g,b)` without an alpha is opaque. */
  lemma ParseRgbaWithoutAlpha(r: nat, g: nat, b: nat)
    ensures ParseColor("rgba(" + Channels(r, g, b, [])) == Colour(Rgba(r, g, b, 1.0))
  {
    var t := Channels(r, g, b, []);
    ChannelsLowerCase(r, g, b, []);
    FunctionalNormal("rgba(", t);
    DecimalLowerCase(r);
    DecimalLowerCase(g);
    DecimalLowerCase(b);
    MatchRgbaOf(Decimal(r), Decimal(g), Decimal(b));
    DecimalRoundTrip(r);
    DecimalRoundTrip(g);
    DecimalRoundTrip(b);
  }

  /**
    * `rgba(r,g,b,al)` takes `float(al)` as alpha: a lexeme Python cannot read
    * raises, and an alpha of 0 gives no colour.
    */
  lemma ParseRgbaWithAlpha(r: nat, g: nat, b: nat, al: string)
    requires al != [] && DigitsAndDots(al)
    ensures ParseColor("rgba(" + Channels(r, g, b, "," + al))
            == match FloatLexeme(al)
               case None => ParseError
               case Some(v) => if v == 0.0 then NoColour else Colour(Rgba(r, g, b, v))
  {
    var t := Channels(r, g, b, "," + al);
    assert IsLowerCase("," + al);
    ChannelsLowerCase(r, g, b, "," + al);
    FunctionalNormal("rgba(", t);
    DecimalLowerCase(r);
    DecimalLowerCase(g);
    DecimalLowerCase(b);
    MatchRgbaAlphaOf(Decimal(r), Decimal(g), Decimal(b), al);
    DecimalRoundTrip(r);
    DecimalRoundTrip(g);
    DecimalRoundTrip(b);
  }

  /**
    * A string that is not `#` with 3, 6 or 8 characters after it and does not
    * start with `rgb` is one of the five named colours or no colour at all.
    */
  lemma ParseUnrecognised(s: string)
    requires var c := Strip(Lower(s));
      !StartsWith(c, "rgb") && !(StartsWith(c, "#") && |c| - 1 in {3, 6, 8})
    ensures ParseColor(s) == if Named(Strip(Lower(s))).Some? then Colour(Named(Strip(Lower(s))).value) else NoColour
  {
    var c := Strip(Lower(s));
    NormalUnrecognised(c);
  }

  lemma NormalUnrecognised(c: string)
    requires !StartsWith(c, "rgb") && !(StartsWith(c, "#") && |c| - 1 in {3, 6, 8})
    ensures ParseNormal(c) == if Named(c).Some? then Colour(Named(c).value) else NoColour
  {
    NotPrefix(c, "rgba(");
    NotPrefix(c, "rgb(");
    assert MatchRgba(c) == None && MatchRgb(c) == None;
  }

  lemma NotPrefix(c: string, long: string)
    requires !StartsWith(c, "rgb") && |long| >= 3 && long[..3] == "rgb"
    ensures !StartsWith(c, long)
  {
    if |long| <= |c| {
      assert c[..|long|][..3] == c[..3];
    }
  }

  /** Python's `int(x)` on a float: truncation toward zero. */
  function Trunc(x: real): (n: int)
    ensures x >= 0.0 ==> n == x.Floor
    ensures x < 0.0 ==> x <= n as real < x + 1.0
    ensures n as real <= x < n as real + 1.0 || n as real - 1.0 < x <= n as real
    ensures (n >= 0) == (x > -1.0)
  {
    if x >= 0.0 then x.Floor else -((-x).Floor)
  }

  /** One channel of `fg * alpha + bg * (1 - alpha)` before truncation. */
  function Mix(f: int, bg: int, a: real): real {
    f as real * a + bg as real * (1.0 - a)
  }

  function BlendChannel(f: int, bg: int, a: real): int {
    Trunc(Mix(f, bg, a))
  }

  /** `blend_colors`: the source-over composite of `fg` on an opaque `bg`, each channel truncated. */
  function Blend(fg: Rgba, bg: Rgb): (r: Rgb)
    ensures fg.a == 1.0 ==> r == fg.Opaque()
    ensures fg.a == 0.0 ==> r == bg
  {
    Rgb(BlendChannel(fg.r, bg.r, fg.a), BlendChannel(fg.g, bg.g, fg.a), BlendChannel(fg.b, bg.b, fg.a))
  }

  /**
    * The layers composited onto `base`, the outermost (last collected) first
    * and the element's own layer (`layers[0]`) last.
    */
  function BlendAll(layers: seq<Rgba>, base: Rgb): Rgb
    decreases |layers|
  {
    if layers == [] then base else Blend(layers[0], BlendAll(layers[1..], base))
  }

  predicate InByteRange(x: int) { 0 <= x <= 255 }

  predicate ValidRgb(c: Rgb) { InByteRange(c.r) && InByteRange(c.g) && InByteRange(c.b) }

  /** A colour as CSS allows it: bytes for channels, alpha between 0 and 1. */
  predicate ValidRgba(c: Rgba) {
    InByteRange(c.r) && InByteRange(c.g) && InByteRange(c.b) && 0.0 <= c.a <= 1.0
  }

  lemma ScaleBetween(d: real, a: real)
    requires 0.0 <= a <= 1.0
    ensures d >= 0.0 ==> 0.0 <= d * a <= d
    ensures d < 0.0 ==> d <= d * a <= 0.0
  {
    assert d * a + d * (1.0 - a) == d;
    if d >= 0.0 {
      assert d * (1.0 - a) >= 0.0;
    } else {
      assert (-d) * (1.0 - a) >= 0.0;
      assert (-d) * a >= 0.0;
    }
  }

  lemma BlendIsInterpolation(f: int, bg: int, a: real)
    ensures f as real * a + bg as real * (1.0 - a) == bg as real + (f - bg) as real * a
  {
    assert bg as real * (1.0 - a) == bg as real - bg as real * a;
    assert (f - bg) as real * a == f as real * a - bg as real * a;
  }

  lemma TruncBetween(x: real, lo: int, hi: int)
    requires 0 <= lo && lo as real <= x <= hi as real
    ensures lo <= Trunc(x) <= hi
  {
  }

  lemma BlendValueBetween(f: int, bg: int, a: real)
    requires 0.0 <= a <= 1.0
    ensures f <= bg ==> f as real <= Mix(f, bg, a) <= bg as real
    ensures bg < f ==> bg as real <= Mix(f, bg, a) <= f as real
  {
    var d := (f - bg) as real;
    BlendIsInterpolation(f, bg, a);
    ScaleBetween(d, a);
    var p := d * a;
    assert f as real * a + bg as real * (1.0 - a) == bg as real + p;
    assert bg as real + d == f as real;
    if f <= bg {
      assert d <= p <= 0.0;
    } else {
      assert 0.0 <= p <= d;
    }
  }

  lemma BlendChannelBetween(f: int, bg: int, a: real)
    requires InByteRange(f) && InByteRange(bg) && 0.0 <= a <= 1.0
    ensures InByteRange(BlendChannel(f, bg, a))
    ensures (if f <= bg then f else bg) <= BlendChannel(f, bg, a) <= (if f <= bg then bg else f)
  {
    BlendValueBetween(f, bg, a);
    var x := Mix(f, bg, a);
    if f <= bg {
      TruncBetween(x, f, bg);
    } else {
      TruncBetween(x, bg, f);
    }
  }

  /** Blending colours within the CSS ranges stays within byte range. */
  lemma {:induction false} BlendAllInRange(layers: seq<Rgba>, base: Rgb)
    requires ValidRgb(base)
    requires forall i :: 0 <= i < |layers| ==> ValidRgba(layers[i])
    ensures ValidRgb(BlendAll(layers, base))
  {
    if layers != [] {
      BlendAllInRange(layers[1..], base);
      var l, b := layers[0], BlendAll(layers[1..], base);
      BlendChannelBetween(l.r, b.r, l.a);
      BlendChannelBetween(l.g, b.g, l.a);
      BlendChannelBetween(l.b, b.b, l.a);
    }
  }

  /** Half-transparent black over white is (127, 127, 127): 127.5 truncated. */
  lemma HalfBlackOverWhite()
    ensures BlendAll([Rgba(0, 0, 0, 0.5)], White) == Rgb(127, 127, 127)
  {
    assert BlendChannel(0, 255, 0.5) == 127;
  }

  /** One observed node of the ancestor chain: its tag name and computed background. */
  datatype Node = Node(tag: string, background: string)

  predicate IsRootOrBody(tag: string) {
    Lower(tag) == "html" || Lower(tag) == "body"
  }

  /** What the walk makes of one node: whether it is html/body, and its parsed background. */
  datatype Seen = Seen(rootOrBody: bool, colour: Parsed)

  function See(n: Node): Seen {
    Seen(IsRootOrBody(n.tag), ParseColor(n.background))
  }

  function SeeAll(chain: seq<Node>): (steps: seq<Seen>)
    ensures |steps| == |chain|
    ensures forall i :: 0 <= i < |chain| ==> steps[i] == See(chain[i])
  {
    if chain == [] then [] else [See(chain[0])] + SeeAll(chain[1..])
  }

  /** The outcome of `get_effective_background_rgb`: a colour, or the `ValueError` it lets escape. */
  datatype Background = Bg(rgb: Rgb) | BgError

  /** The base colour the walk falls back to: the document background if opaque, else white. */
  function Fallback(doc: Parsed): Rgb {
    if doc.Colour? && doc.c.a == 1.0 then doc.c.Opaque() else White
  }

  predicate IsOpaque(p: Parsed) { p.Colour? && p.c.a == 1.0 }

  /** The layer a non-opaque node contributes: its colour when alpha is positive. */
  function LayerOf(p: Parsed): (l: seq<Rgba>)
    ensures |l| <= 1
  {
    if p.Colour? && p.c.a > 0.0 then [p.c] else []
  }

  /**
    * The walk from `steps[0]` outward with `layers` collected so far. The walk
    * ends on the first opaque layer, after html/body, or at the end of the
    * chain (no parent, the node is its own parent, or the browser failed);
    * parse errors are not caught by the walk.
    */
  function Walk(steps: seq<Seen>, layers: seq<Rgba>, base: Rgb): Background
    decreases |steps|
  {
    if steps == [] then Bg(BlendAll(layers, base))
    else
      var p := steps[0].colour;
      if p.ParseError? then BgError
      else if IsOpaque(p) then Bg(BlendAll(layers, p.c.Opaque()))
      else if steps[0].rootOrBody then Bg(BlendAll(layers + LayerOf(p), base))
      else Walk(steps[1..], layers + LayerOf(p), base)
  }

  /** The steps from `i` on are step `i` followed by the steps after it. */
  lemma StepsFrom(steps: seq<Seen>, i: nat)
    requires i < |steps|
    ensures steps[i..] == [steps[i]] + steps[i + 1..]
  {
  }

  /** The walk's first step, for a chain given as its first element and the rest. */
  lemma WalkCons(s: Seen, rest: seq<Seen>, layers: seq<Rgba>, base: Rgb)
    ensures Walk([s] + rest, layers, base) ==
            if s.colour.ParseError? then BgError
            else if IsOpaque(s.colour) then Bg(BlendAll(layers, s.colour.c.Opaque()))
            else if s.rootOrBody then Bg(BlendAll(layers + LayerOf(s.colour), base))
            else Walk(rest, layers + LayerOf(s.colour), base)
  {
    assert ([s] + rest)[1..] == rest;
  }

  /** The `for layer in reversed(path)` loop: composites the layers outermost first. */
  method BlendLayers(path: seq<Rgba>, base: Rgb) returns (bg: Rgb)
    ensures bg == BlendAll(path, base)
  {
    bg := base;
    var k := |path|;
    while k > 0
      invariant 0 <= k <= |path|
      invariant bg == BlendAll(path[k..], base)
    {
      assert path[k - 1..][1..] == path[k..];
      bg := Blend(path[k - 1], bg);
      k := k - 1;
    }
  }

  /** `get_effective_background_rgb` as a value: the document background first, then the walk. */
  function EffectiveBackground(doc: string, chain: seq<Node>): Background {
    var d := ParseColor(doc);
    if d.ParseError? then BgError else Walk(SeeAll(chain), [], Fallback(d))
  }

  /**
    * The loop of `get_effective_background_rgb`: collects translucent layers
    * into `path` and blends them onto the first opaque one.
    */
  method EffectiveBackgroundRgb(doc: string, chain: seq<Node>) returns (result: Background)
    ensures result == EffectiveBackground(doc, chain)
  {
    var d := ParseColor(doc);
    if d.ParseError? {
      return BgError;
    }
    var base := Fallback(d);
    var path: seq<Rgba> := [];
    ghost var steps := SeeAll(chain);
    var i := 0;
    while i < |chain|
      invariant 0 <= i <= |chain|
      invariant Walk(steps, [], base) == Walk(steps[i..], path, base)
    {
      var node := chain[i];
      var p := ParseColor(node.background);
      ghost var before := path;
      assert steps[i..][0] == Seen(IsRootOrBody(node.tag), p);
      assert steps[i..][1..] == steps[i + 1..];
      if p.ParseError? {
        return BgError;
      }
      if p.Colour? {
        if p.c.a == 1.0 {
          assert Walk(steps[i..], path, base) == Bg(BlendAll(path, p.c.Opaque()));
          var bg := BlendLayers(path, p.c.Opaque());
          return Bg(bg);
        } else if p.c.a > 0.0 {
          path := path + [p.c];
        }
      }
      assert path == before + LayerOf(p);
      if IsRootOrBody(node.tag) {
        assert Walk(steps[i..], before, base) == Bg(BlendAll(path, base));
        break;
      }
      assert Walk(steps[i..], before, base) == Walk(steps[i + 1..], path, base);
      i := i + 1;
    }
    assert Walk(steps, [], base) == Bg(BlendAll(path, base)) by {
      if i == |chain| {
        assert steps[i..] == [];
      }
    }
    var bg := BlendLayers(path, base);
    result := Bg(bg);
  }

  /** A node the walk passes through: readable, not opaque, and not html or body. */
  predicate PassesThrough(s: Seen) {
    !s.colour.ParseError? && !IsOpaque(s.colour) && !s.rootOrBody
  }

  /** The translucent layers of `steps`, element first. */
  function Layers(steps: seq<Seen>): (ls: seq<Rgba>)
    ensures |ls| <= |steps|
  {
    if steps == [] then [] else LayerOf(steps[0].colour) + Layers(steps[1..])
  }

  /** Passing through a prefix of the chain only collects its translucent layers. */
  lemma {:induction false} WalkPrefix(steps: seq<Seen>, k: nat, acc: seq<Rgba>, base: Rgb)
    requires k <= |steps|
    requires forall i :: 0 <= i < k ==> PassesThrough(steps[i])
    ensures Walk(steps, acc, base) == Walk(steps[k..], acc + Layers(steps[..k]), base)
  {
    if k == 0 {
      assert steps[..0] == [] && steps[0..] == steps && acc + [] == acc;
    } else {
      var one := LayerOf(steps[0].colour);
      WalkPrefix(steps[1..], k - 1, acc + one, base);
      assert steps[1..][k - 1..] == steps[k..];
      assert steps[..k][1..] == steps[1..][..k - 1];
      assert acc + one + Layers(steps[1..][..k - 1]) == acc + Layers(steps[..k]);
    }
  }

  lemma {:induction false} LayersSnoc(steps: seq<Seen>)
    requires steps != []
    ensures Layers(steps) == Layers(steps[..|steps| - 1]) + LayerOf(steps[|steps| - 1].colour)
  {
    if |steps| > 1 {
      LayersSnoc(steps[1..]);
      assert steps[1..][..|steps| - 2] == steps[..|steps| - 1][1..];
    } else {
      assert steps[..0] == [];
    }
  }

  /** The walk starts from the document's fallback colour, unless the document colour raised. */
  lemma EffectiveBackgroundIsWalk(doc: string, chain: seq<Node>)
    requires !ParseColor(doc).ParseError?
    ensures EffectiveBackground(doc, chain) == Walk(SeeAll(chain), [], Fallback(ParseColor(doc)))
  {
  }

  /**
    * Walking outward, the first opaque layer is the base: the translucent
    * layers in front of it are composited onto it, and nothing beyond it matters.
    */
  lemma FirstOpaqueIsBase(steps: seq<Seen>, k: nat, base: Rgb)
    requires k < |steps| && forall i :: 0 <= i < k ==> PassesThrough(steps[i])
    requires IsOpaque(steps[k].colour)
    ensures Walk(steps, [], base) == Bg(BlendAll(Layers(steps[..k]), steps[k].colour.c.Opaque()))
  {
    WalkPrefix(steps, k, [], base);
    assert [] + Layers(steps[..k]) == Layers(steps[..k]);
    assert steps[k..][0] == steps[k];
  }

  /** With no translucent layer in front of it, the opaque colour is the answer unchanged. */
  lemma OpaqueWithoutLayers(steps: seq<Seen>, k: nat, base: Rgb)
    requires k < |steps| && forall i :: 0 <= i < k ==> PassesThrough(steps[i])
    requires IsOpaque(steps[k].colour) && Layers(steps[..k]) == []
    ensures Walk(steps, [], base) == Bg(steps[k].colour.c.Opaque())
  {
    FirstOpaqueIsBase(steps, k, base);
  }

  /**
    * A translucent or unparsed html/body background ends the walk: the layers
    * up to and including it are composited onto the fallback.
    */
  lemma StopsAtRootOrBody(steps: seq<Seen>, k: nat, base: Rgb)
    requires k < |steps| && forall i :: 0 <= i < k ==> PassesThrough(steps[i])
    requires steps[k].rootOrBody && !steps[k].colour.ParseError? && !IsOpaque(steps[k].colour)
    ensures Walk(steps, [], base) == Bg(BlendAll(Layers(steps[..k + 1]), base))
  {
    WalkPrefix(steps, k, [], base);
    assert [] + Layers(steps[..k]) == Layers(steps[..k]);
    assert steps[k..][0] == steps[k];
    LayersSnoc(steps[..k + 1]);
    assert steps[..k + 1][..k] == steps[..k];
  }

  /** When the chain runs out, every translucent layer is composited onto the fallback. */
  lemma ChainExhausted(steps: seq<Seen>, base: Rgb)
    requires forall i :: 0 <= i < |steps| ==> PassesThrough(steps[i])
    ensures Walk(steps, [], base) == Bg(BlendAll(Layers(steps), base))
  {
    WalkPrefix(steps, |steps|, [], base);
    assert steps[..|steps|] == steps;
    assert [] + Layers(steps) == Layers(steps);
    assert steps[|steps|..] == [];
  }

  /** A colour string Python cannot read, on a node the walk reaches, escapes as an error. */
  lemma ParseErrorEscapes(steps: seq<Seen>, k: nat, base: Rgb)
    requires k < |steps| && forall i :: 0 <= i < k ==> PassesThrough(steps[i])
    requires steps[k].colour.ParseError?
    ensures Walk(steps, [], base) == BgError
  {
    WalkPrefix(steps, k, [], base);
    assert [] + Layers(steps[..k]) == Layers(steps[..k]);
    assert steps[k..][0] == steps[k];
  }

  /** A half-transparent black element in front of a white body resolves to (127, 127, 127). */
  lemma HalfBlackOnWhiteBody(base: Rgb)
    ensures Walk([Seen(false, Colour(Rgba(0, 0, 0, 0.5))), Seen(true, Colour(Rgba(255, 255, 255, 1.0)))], [], base)
            == Bg(Rgb(127, 127, 127))
  {
    var steps := [Seen(false, Colour(Rgba(0, 0, 0, 0.5))), Seen(true, Colour(Rgba(255, 255, 255, 1.0)))];
    assert steps[1..] == [Seen(true, Colour(Rgba(255, 255, 255, 1.0)))];
    assert [] + LayerOf(steps[0].colour) == [Rgba(0, 0, 0, 0.5)];
    assert Walk(steps, [], base) == Walk(steps[1..], [Rgba(0, 0, 0, 0.5)], base);
    HalfBlackOverWhite();
  }
}
