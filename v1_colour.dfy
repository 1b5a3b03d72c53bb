/**
 * Colour parsing and the effective-background walk of the first analyzer
 * (v1/main.py). The parser always gives a 3-tuple, so alpha is dropped; the
 * walk reads translucency only from an explicit four-component `rgba(...)`,
 * stops at html (not at body) and falls back to white.
 */
module ColourV1 {
  import opened Text
  import opened Wrappers
  import opened Lexemes
  import C4 = ColourV4

  /** What `parse_color_string_to_rgb_tuple` returns here: an RGB 3-tuple, `None`, or a `ValueError`. */
  datatype Parsed = Colour(rgb: C4.Rgb) | NoColour | ParseError

  /**
   * The `#...` branch for the text after '#': 3 digits are doubled, 6 or 8
   * digits give their first three bytes; any other length falls through to
   * the named colours.
   */
  function ParseHex(h: string): Option<Parsed> {
    if |h| == 3 then
      var r, g, b := HexPair(h[0], h[0]), HexPair(h[1], h[1]), HexPair(h[2], h[2]);
      if r.None? || g.None? || b.None? then Some(ParseError)
      else Some(Colour(C4.Rgb(r.value, g.value, b.value)))
    else if |h| == 6 || |h| == 8 then
      var r, g, b := HexPair(h[0], h[1]), HexPair(h[2], h[3]), HexPair(h[4], h[5]);
      if r.None? || g.None? || b.None? then Some(ParseError)
      else Some(Colour(C4.Rgb(r.value, g.value, b.value)))
    else None
  }

  /** The parser after `lower().strip()`: `rgba(...)`, `rgb(...)`, `#...`, then the named colours. */
  function ParseNormal(c: string): Parsed {
    if c == "transparent" then NoColour
    else match MatchRgba(c)
      case Some(m) =>
        var a := if m.alpha.None? then Some(1.0) else FloatLexeme(m.alpha.value);
        if a.None? then ParseError
        else if a.value == 0.0 then NoColour
        else Colour(C4.Rgb(DigitsValue(m.red), DigitsValue(m.green), DigitsValue(m.blue)))
      case None =>
        match MatchRgb(c)
        case Some(m) => Colour(C4.Rgb(DigitsValue(m.red), DigitsValue(m.green), DigitsValue(m.blue)))
        case None =>
          if StartsWith(c, "#") && ParseHex(c[1..]).Some? then ParseHex(c[1..]).value
          else if C4.Named(c).Some? then Colour(C4.Named(c).value.Opaque())
          else NoColour
  }

  /** `parse_color_string_to_rgb_tuple` of v1/main.py. */
  function ParseColor(s: string): (p: Parsed)
    ensures s == [] || Strip(Lower(s)) == "transparent" ==> p == NoColour
  {
    if s == [] then NoColour else ParseNormal(Strip(Lower(s)))
  }

  /** The current analyzer's result with its alpha dropped. */
  function DropAlpha(p: C4.Parsed): Parsed {
    match p
      case Colour(c) => Colour(c.Opaque())
      case NoColour => NoColour
      case ParseError => ParseError
  }

  /** Apart from eight digits, the hex branch reads what the current analyzer's does, less alpha. */
  lemma HexDropsAlpha(h: string)
    requires |h| != 8
    ensures ParseHex(h) == if C4.ParseHex(h).Some? then Some(DropAlpha(C4.ParseHex(h).value)) else None
  {
  }

  /** A string starting with `#` matches neither functional form nor a name. */
  lemma HashIsNotFunctional(c: string)
    requires StartsWith(c, "#")
    ensures MatchRgba(c).None? && MatchRgb(c).None? && C4.Named(c).None?
  {
    HashNotPrefix(c, "rgba(");
    HashNotPrefix(c, "rgb(");
    HashNotName(c);
  }

  lemma HashNotPrefix(c: string, p: string)
    requires StartsWith(c, "#") && p != [] && p[0] != '#'
    ensures !StartsWith(c, p)
  {
    assert c[..1] == "#";
    if |p| <= |c| {
      assert c[..|p|][0] == c[..1][0];
    }
  }

  lemma HashNotName(c: string)
    requires StartsWith(c, "#")
    ensures C4.Named(c).None?
  {
    assert c[..1] == "#";
    assert c[0] == '#';
  }

  lemma NormalDropsAlpha(c: string)
    requires !(StartsWith(c, "#") && |c| == 9)
    ensures ParseNormal(c) == DropAlpha(C4.ParseNormal(c))
  {
    if c != "transparent" && StartsWith(c, "#") {
      HashIsNotFunctional(c);
      HexDropsAlpha(c[1..]);
    }
  }

  /**
   * Apart from `#rrggbbaa`, this parser reads every colour as the current
   * analyzer does, less its alpha.
   */
  lemma ParseDropsAlpha(s: string)
    requires var c := Strip(Lower(s)); !(StartsWith(c, "#") && |c| == 9)
    ensures ParseColor(s) == DropAlpha(C4.ParseColor(s))
  {
    if s != [] {
      NormalDropsAlpha(Strip(Lower(s)));
    }
  }

  /** `#rrggbbaa` is read as the opaque `(r, g, b)`, whatever its alpha; the current analyzer keeps the alpha. */
  lemma HexAlphaIgnored(r: nat, g: nat, b: nat, a: nat)
    requires r < 256 && g < 256 && b < 256 && a < 256
    ensures ParseColor("#" + HexByte(r) + HexByte(g) + HexByte(b) + HexByte(a)) == Colour(C4.Rgb(r, g, b))
    ensures C4.ParseColor("#" + HexByte(r) + HexByte(g) + HexByte(b) + HexByte(a)) ==
            if a == 0 then C4.NoColour else C4.Colour(C4.Rgba(r, g, b, a as real / 255.0))
  {
    var h := HexByte(r) + HexByte(g) + HexByte(b) + HexByte(a);
    var s := "#" + h;
    assert s == "#" + HexByte(r) + HexByte(g) + HexByte(b) + HexByte(a);
    assert IsLowerCase(s);
    NormalFormFixed(s);
    EightDigitsOpaque(r, g, b, a);
    HashNormal(s, h);
    C4.ParseHexAlpha(r, g, b, a);
  }

  /** Eight hex digits give the colour of their first six. */
  lemma EightDigitsOpaque(r: nat, g: nat, b: nat, a: nat)
    requires r < 256 && g < 256 && b < 256 && a < 256
    ensures ParseHex(HexByte(r) + HexByte(g) + HexByte(b) + HexByte(a)) == Some(Colour(C4.Rgb(r, g, b)))
  {
    var h := HexByte(r) + HexByte(g) + HexByte(b) + HexByte(a);
    assert h[0] == HexByte(r)[0] && h[1] == HexByte(r)[1];
    assert h[2] == HexByte(g)[0] && h[3] == HexByte(g)[1];
    assert h[4] == HexByte(b)[0] && h[5] == HexByte(b)[1];
  }

  /** A normal form `#h` whose digits the hex branch reads is read by that branch. */
  lemma HashNormal(s: string, h: string)
    requires s == "#" + h && ParseHex(h).Some?
    ensures ParseNormal(s) == ParseHex(h).value
  {
    assert s != "transparent" by { assert "transparent"[0] == 't'; }
    assert StartsWith(s, "#") by { assert s[..1] == "#"; }
    assert s[1..] == h;
    HashIsNotFunctional(s);
  }

  /**
   * `re.match(r"rgba\((\d+),\s*(\d+),\s*(\d+),\s*([\d.]+)\)", ...)`: the
   * four-component form, which is where the optional alpha group of
   * `MatchRgba` is present.
   */
  function MatchRgba4(c: string): (m: Option<ColourMatch>)
    ensures m.Some? ==> m.value.alpha.Some?
  {
    match MatchRgba(c)
      case Some(m) => if m.alpha.Some? then Some(m) else None
      case None => None
  }

  /** An RGB tuple as the walk extends it, `(*rgb_only, 1.0)`. */
  function Opaque(p: Parsed): C4.Parsed {
    match p
      case Colour(rgb) => C4.Colour(C4.Rgba(rgb.r, rgb.g, rgb.b, 1.0))
      case NoColour => C4.NoColour
      case ParseError => C4.ParseError
  }

  /**
   * The colour the walk reads from one node's background: an explicit
   * four-component `rgba` keeps its alpha (a malformed alpha raises);
   * any other colour the parser reads is opaque; nothing, `transparent`
   * and unreadable text contribute nothing.
   */
  function Layer(s: string): (p: C4.Parsed)
    ensures p.Colour? && p.c.a != 1.0 ==> s != [] && MatchRgba4(Strip(Lower(s))).Some?
  {
    if s == [] then C4.NoColour else LayerNormal(Strip(Lower(s)))
  }

  function LayerNormal(c: string): (p: C4.Parsed)
    ensures p.Colour? && p.c.a != 1.0 ==> MatchRgba4(c).Some?
  {
    if c == "transparent" then C4.NoColour
    else match MatchRgba4(c)
      case Some(m) =>
        var a := FloatLexeme(m.alpha.value);
        if a.None? then C4.ParseError
        else C4.Colour(C4.Rgba(DigitsValue(m.red), DigitsValue(m.green), DigitsValue(m.blue), a.value))
      case None => Opaque(ParseNormal(c))
  }

  /** What the walk makes of one node: whether it is html, and the colour it reads. */
  function See(n: C4.Node): C4.Seen {
    C4.Seen(Lower(n.tag) == "html", Layer(n.background))
  }

  function SeeAll(chain: seq<C4.Node>): (steps: seq<C4.Seen>)
    ensures |steps| == |chain|
    ensures forall i :: 0 <= i < |chain| ==> steps[i] == See(chain[i])
  {
    if chain == [] then [] else [See(chain[0])] + SeeAll(chain[1..])
  }

  /**
   * `get_effective_background_rgb` of v1/main.py: the walk that stops at the
   * first opaque colour, after html, or at the end of the chain, over white.
   */
  function EffectiveBackground(chain: seq<C4.Node>): C4.Background {
    C4.Walk(SeeAll(chain), [], C4.White)
  }

  /** The loop of `get_effective_background_rgb`, collecting translucent layers into `path`. */
  method EffectiveBackgroundRgb(chain: seq<C4.Node>) returns (result: C4.Background)
    ensures result == EffectiveBackground(chain)
  {
    var path: seq<C4.Rgba> := [];
    ghost var steps := SeeAll(chain);
    var i := 0;
    while i < |chain|
      invariant 0 <= i <= |chain|
      invariant C4.Walk(steps, [], C4.White) == C4.Walk(steps[i..], path, C4.White)
    {
      var node := chain[i];
      var p := Layer(node.background);
      ghost var before := path;
      assert steps[i..][0] == C4.Seen(Lower(node.tag) == "html", p);
      assert steps[i..][1..] == steps[i + 1..];
      if p.ParseError? {
        return C4.BgError;
      }
      if p.Colour? {
        if p.c.a == 1.0 {
          var bg := C4.BlendLayers(path, p.c.Opaque());
          return C4.Bg(bg);
        } else if p.c.a > 0.0 {
          path := path + [p.c];
        }
      }
      assert path == before + C4.LayerOf(p);
      if Lower(node.tag) == "html" {
        break;
      }
      i := i + 1;
    }
    assert C4.Walk(steps, [], C4.White) == C4.Bg(C4.BlendAll(path, C4.White)) by {
      if i == |chain| {
        assert steps[i..] == [];
      }
    }
    var bg := C4.BlendLayers(path, C4.White);
    result := C4.Bg(bg);
  }

  /** A chain in which no node has a colour ends on the base. */
  lemma {:induction false} Colourless(steps: seq<C4.Seen>, base: C4.Rgb)
    requires forall i :: 0 <= i < |steps| ==> steps[i].colour.NoColour?
    ensures C4.Walk(steps, [], base) == C4.Bg(base)
    decreases |steps|
  {
    if steps != [] && !steps[0].rootOrBody {
      assert C4.LayerOf(steps[0].colour) == [];
      assert [] + C4.LayerOf(steps[0].colour) == [];
      Colourless(steps[1..], base);
    }
  }

  /** Where no node has a colour, the background is white. */
  lemma NoColourIsWhite(chain: seq<C4.Node>)
    requires forall i :: 0 <= i < |chain| ==> Layer(chain[i].background).NoColour?
    ensures EffectiveBackground(chain) == C4.Bg(C4.White)
  {
    Colourless(SeeAll(chain), C4.White);
  }

  lemma LayerOfBlack()
    ensures Layer("black") == C4.Colour(C4.Rgba(0, 0, 0, 1.0))
  {
    assert IsLowerCase("black");
    NormalFormFixed("black");
    LayerNormalBlack();
  }

  lemma LayerNormalBlack()
    ensures LayerNormal("black") == C4.Colour(C4.Rgba(0, 0, 0, 1.0))
  {
    NoRgba4("black");
    ParseNormalBlack();
  }

  /** A text that does not open with 'r' has no four-component `rgba` match. */
  lemma NoRgba4(c: string)
    requires c != [] && c[0] != 'r'
    ensures MatchRgba4(c).None?
  {
    assert !StartsWith(c, "rgba(") by {
      if |c| >= 5 {
        assert c[..5][0] == c[0] && "rgba("[0] == 'r';
      }
    }
    assert MatchRgba(c) == None;
  }

  lemma ParseNormalBlack()
    ensures ParseNormal("black") == Colour(C4.Rgb(0, 0, 0))
  {
    assert MatchRgba("black").None? && MatchRgb("black").None? by {
      assert "black"[0] == 'b';
    }
    assert !StartsWith("black", "#");
  }

  lemma LayerOfTransparent()
    ensures Layer("transparent") == C4.NoColour
  {
    assert IsLowerCase("transparent");
    NormalFormFixed("transparent");
  }

  /** The walk over a transparent body and a black html element. */
  lemma WalkPastBody(chain: seq<C4.Node>)
    requires chain == [C4.Node("body", "transparent"), C4.Node("html", "black")]
    ensures EffectiveBackground(chain) == C4.Bg(C4.Rgb(0, 0, 0))
  {
    SeeBodyHtml(chain);
    WalkTransparentThenBlack(SeeAll(chain));
  }

  lemma SeeBodyHtml(chain: seq<C4.Node>)
    requires chain == [C4.Node("body", "transparent"), C4.Node("html", "black")]
    ensures SeeAll(chain) == [C4.Seen(false, C4.NoColour), C4.Seen(true, C4.Colour(C4.Rgba(0, 0, 0, 1.0)))]
  {
    SeeAllOfTwo(chain);
    SeeBody(chain[0]);
    SeeBlackHtml(chain[1]);
  }

  lemma SeeAllOfTwo(chain: seq<C4.Node>)
    requires |chain| == 2
    ensures SeeAll(chain) == [See(chain[0]), See(chain[1])]
  {
  }

  lemma SeeBody(n: C4.Node)
    requires n == C4.Node("body", "transparent")
    ensures See(n) == C4.Seen(false, C4.NoColour)
  {
    LayerOfTransparent();
    LowerTag(n.tag);
  }

  lemma SeeBlackHtml(n: C4.Node)
    requires n == C4.Node("html", "black")
    ensures See(n) == C4.Seen(true, C4.Colour(C4.Rgba(0, 0, 0, 1.0)))
  {
    LayerOfBlack();
    LowerTag(n.tag);
  }

  /** The two tag names the walk compares with are already lower-case. */
  lemma LowerTag(t: string)
    requires t == "html" || t == "body"
    ensures Lower(t) == t
  {
    LowerOfLowerCase(t);
  }

  lemma WalkTransparentThenBlack(steps: seq<C4.Seen>)
    requires steps == [C4.Seen(false, C4.NoColour), C4.Seen(true, C4.Colour(C4.Rgba(0, 0, 0, 1.0)))]
    ensures C4.Walk(steps, [], C4.White) == C4.Bg(C4.Rgb(0, 0, 0))
  {
    assert C4.LayerOf(C4.NoColour) == [];
    assert steps[1..] == [steps[1]];
    assert C4.Walk(steps, [], C4.White) == C4.Walk(steps[1..], [], C4.White);
  }

  /** The current analyzer sees a transparent body as a stopping node without colour. */
  lemma SeeTransparentBody()
    ensures C4.See(C4.Node("body", "transparent")) == C4.Seen(true, C4.NoColour)
  {
    LowerTag("body");
    assert IsLowerCase("transparent");
    NormalFormFixed("transparent");
  }

  /** In the current analyzer's walk a colourless stopping node ends on the base. */
  lemma StopWithoutColour(steps: seq<C4.Seen>, base: C4.Rgb)
    requires |steps| > 0 && steps[0] == C4.Seen(true, C4.NoColour)
    ensures C4.Walk(steps, [], base) == C4.Bg(base)
  {
    C4.StopsAtRootOrBody(steps, 0, base);
    assert steps[..1] == [steps[0]];
  }

  /** The current analyzer's walk stops at the transparent body. */
  lemma StopAtBody(html: string)
    ensures C4.EffectiveBackground("transparent", [C4.Node("body", "transparent"), C4.Node("html", html)]) == C4.Bg(C4.White)
  {
    var chain := [C4.Node("body", "transparent"), C4.Node("html", html)];
    SeeTransparentBody();
    assert C4.ParseColor("transparent") == C4.NoColour;
    StopWithoutColour(C4.SeeAll(chain), C4.White);
  }

  /**
   * A transparent body does not end the walk: the html colour beyond it is
   * found, where the current analyzer stops at body and falls back to white.
   */
  lemma BodyDoesNotStop(chain: seq<C4.Node>)
    requires chain == [C4.Node("body", "transparent"), C4.Node("html", "black")]
    ensures EffectiveBackground(chain) == C4.Bg(C4.Rgb(0, 0, 0))
    ensures C4.EffectiveBackground("transparent", chain) == C4.Bg(C4.White)
  {
    WalkPastBody(chain);
    StopAtBody("black");
  }
}
