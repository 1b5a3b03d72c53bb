/**
 * Colour parsing and the effective-background walk of the second analyzer
 * (v2/main.py). The `rgba(...)`, `rgb(...)` and named forms are read as the
 * current analyzer reads them; the `#` forms differ: they give a 3-tuple
 * without alpha, which the walk then indexes at position 3.
 */
module ColourV2 {
  import opened Text
  import opened Wrappers
  import opened Lexemes
  import C4 = ColourV4

  /** What `parse_color_string_to_rgb_tuple` returns here: a 3-tuple, a 4-tuple, `None`, or a `ValueError`. */
  datatype Parsed = Rgb3(rgb: C4.Rgb) | Rgba4(rgba: C4.Rgba) | NoColour | ParseError

  /** The `#...` branch: 3 digits are doubled; 6 or 8 digits give their first three bytes; no alpha either way. */
  function ParseHex(h: string): Option<Parsed> {
    if |h| == 3 then
      var r, g, b := HexPair(h[0], h[0]), HexPair(h[1], h[1]), HexPair(h[2], h[2]);
      if r.None? || g.None? || b.None? then Some(ParseError)
      else Some(Rgb3(C4.Rgb(r.value, g.value, b.value)))
    else if |h| == 6 || |h| == 8 then
      var r, g, b := HexPair(h[0], h[1]), HexPair(h[2], h[3]), HexPair(h[4], h[5]);
      if r.None? || g.None? || b.None? then Some(ParseError)
      else Some(Rgb3(C4.Rgb(r.value, g.value, b.value)))
    else None
  }

  /** The tuples the `rgba`, `rgb` and named branches give, which are those of the current analyzer. */
  function FromV4(p: C4.Parsed): Parsed {
    match p
      case Colour(c) => Rgba4(c)
      case NoColour => NoColour
      case ParseError => ParseError
  }

  /** `parse_color_string_to_rgb_tuple` of v2/main.py. */
  function ParseColor(s: string): (p: Parsed)
    ensures p.Rgba4? ==> p.rgba.a != 0.0
    ensures s == [] || Strip(Lower(s)) == "transparent" ==> p == NoColour
  {
    if s == [] then NoColour else ParseNormal(Strip(Lower(s)))
  }

  function ParseNormal(c: string): (p: Parsed)
    ensures p.Rgba4? ==> p.rgba.a != 0.0
  {
    if c == "transparent" then NoColour
    else if StartsWith(c, "#") && ParseHex(c[1..]).Some? then ParseHex(c[1..]).value
    else FromV4(C4.ParseFunctional(c))
  }

  /** Away from the `#` forms the two analyzers parse alike. */
  lemma AgreesWithV4(s: string)
    requires !StartsWith(Strip(Lower(s)), "#")
    ensures ParseColor(s) == FromV4(C4.ParseColor(s))
  {
  }

  /** `#rrggbb` gives the 3-tuple of its bytes, where the current analyzer gives the opaque 4-tuple. */
  lemma HexIsTriple(r: nat, g: nat, b: nat)
    requires r < 256 && g < 256 && b < 256
    ensures ParseColor("#" + HexByte(r) + HexByte(g) + HexByte(b)) == Rgb3(C4.Rgb(r, g, b))
    ensures C4.ParseColor("#" + HexByte(r) + HexByte(g) + HexByte(b)) == C4.Colour(C4.Rgba(r, g, b, 1.0))
  {
    var s := "#" + HexByte(r) + HexByte(g) + HexByte(b);
    assert s[1..] == HexByte(r) + HexByte(g) + HexByte(b);
    SixDigitsTriple(r, g, b);
    assert IsLowerCase(s);
    HexNormal(s);
    C4.ParseHexLong(r, g, b);
  }

  /** A lower-case `#...` text that the hex branch reads is parsed by that branch. */
  lemma HexNormal(s: string)
    requires IsLowerCase(s) && |s| > 1 && s[0] == '#' && !IsSpace(s[|s| - 1]) && ParseHex(s[1..]).Some?
    ensures ParseColor(s) == ParseHex(s[1..]).value
  {
    NormalFormFixed(s);
    HashBranch(s, s[1..]);
  }

  /** Six hex digits give the 3-tuple of their bytes. */
  lemma SixDigitsTriple(r: nat, g: nat, b: nat)
    requires r < 256 && g < 256 && b < 256
    ensures ParseHex(HexByte(r) + HexByte(g) + HexByte(b)) == Some(Rgb3(C4.Rgb(r, g, b)))
  {
    var h := HexByte(r) + HexByte(g) + HexByte(b);
    assert h[0] == HexByte(r)[0] && h[1] == HexByte(r)[1];
    assert h[2] == HexByte(g)[0] && h[3] == HexByte(g)[1];
    assert h[4] == HexByte(b)[0] && h[5] == HexByte(b)[1];
  }

  /** A normal form `#h` whose digits the hex branch reads is read by that branch. */
  lemma HashBranch(s: string, h: string)
    requires s == "#" + h && ParseHex(h).Some?
    ensures ParseNormal(s) == ParseHex(h).value
  {
    assert s != "transparent" by { assert "transparent"[0] == 't'; }
    assert StartsWith(s, "#") by { assert s[..1] == "#"; }
    assert s[1..] == h;
  }

  /**
   * The tuple as the walk reads it: `parsed_rgba[3]` of a 3-tuple raises an
   * `IndexError`, which the walk does not catch, so it escapes like a
   * `ValueError` from parsing.
   */
  function AsWalked(p: Parsed): (q: C4.Parsed)
    ensures q.ParseError? <==> p.ParseError? || p.Rgb3?
  {
    match p
      case Rgb3(_) => C4.ParseError
      case Rgba4(c) => C4.Colour(c)
      case NoColour => C4.NoColour
      case ParseError => C4.ParseError
  }

  function See(n: C4.Node): C4.Seen {
    C4.Seen(C4.IsRootOrBody(n.tag), AsWalked(ParseColor(n.background)))
  }

  function SeeAll(chain: seq<C4.Node>): (steps: seq<C4.Seen>)
    ensures |steps| == |chain|
    ensures forall i :: 0 <= i < |chain| ==> steps[i] == See(chain[i])
  {
    if chain == [] then [] else [See(chain[0])] + SeeAll(chain[1..])
  }

  /**
   * `get_effective_background_rgb` of v2/main.py: the same walk as the
   * current analyzer's (stop at the first opaque layer, after html/body, or
   * at the end of the chain), over this parser's tuples.
   */
  function EffectiveBackground(doc: string, chain: seq<C4.Node>): C4.Background {
    var d := AsWalked(ParseColor(doc));
    if d.ParseError? then C4.BgError else C4.Walk(SeeAll(chain), [], C4.Fallback(d))
  }

  /** The loop of `get_effective_background_rgb`, collecting translucent layers into `path`. */
  method EffectiveBackgroundRgb(doc: string, chain: seq<C4.Node>) returns (result: C4.Background)
    ensures result == EffectiveBackground(doc, chain)
  {
    var d := ParseColor(doc);
    if d.Rgb3? || d.ParseError? {
      return C4.BgError;
    }
    result := WalkChain(chain, C4.Fallback(AsWalked(d)));
  }

  /** The loop over the element and its ancestors, falling back to `base`. */
  method WalkChain(chain: seq<C4.Node>, base: C4.Rgb) returns (result: C4.Background)
    ensures result == C4.Walk(SeeAll(chain), [], base)
  {
    var path: seq<C4.Rgba> := [];
    ghost var steps := SeeAll(chain);
    var i := 0;
    while i < |chain|
      invariant 0 <= i <= |chain|
      invariant C4.Walk(steps, [], base) == C4.Walk(steps[i..], path, base)
    {
      C4.StepsFrom(steps, i);
      var exit, next := VisitNode(ParseColor(chain[i].background), C4.IsRootOrBody(chain[i].tag), path, base, steps[i + 1..]);
      if exit.Some? {
        return exit.value;
      }
      path := next;
      if C4.IsRootOrBody(chain[i].tag) {
        break;
      }
      i := i + 1;
    }
    assert C4.Walk(steps, [], base) == C4.Bg(C4.BlendAll(path, base)) by {
      if i == |chain| {
        assert steps[i..] == [];
      }
    }
    var bg := C4.BlendLayers(path, base);
    result := C4.Bg(bg);
  }

  /**
   * One element of the walk: a 3-tuple or a parse error ends it with an
   * error, an opaque colour ends it blended under the layers so far, and a
   * translucent colour is added to the layers.
   */
  method VisitNode(p: Parsed, rootOrBody: bool, path: seq<C4.Rgba>, base: C4.Rgb, ghost rest: seq<C4.Seen>)
    returns (exit: Option<C4.Background>, next: seq<C4.Rgba>)
    ensures var s := C4.Seen(rootOrBody, AsWalked(p));
            exit.Some? ==> exit.value == C4.Walk([s] + rest, path, base)
    ensures var s := C4.Seen(rootOrBody, AsWalked(p));
            exit.None? ==>
              C4.Walk([s] + rest, path, base) ==
              (if rootOrBody then C4.Bg(C4.BlendAll(next, base)) else C4.Walk(rest, next, base))
  {
    C4.WalkCons(C4.Seen(rootOrBody, AsWalked(p)), rest, path, base);
    next := path;
    if p.Rgb3? || p.ParseError? {
      return Some(C4.BgError), next;
    }
    if p.Rgba4? {
      if p.rgba.a == 1.0 {
        var bg := C4.BlendLayers(path, p.rgba.Opaque());
        return Some(C4.Bg(bg)), next;
      } else if p.rgba.a > 0.0 {
        next := path + [p.rgba];
      }
    }
    assert !AsWalked(p).ParseError?;
    assert !C4.IsOpaque(AsWalked(p));
    assert next == path + C4.LayerOf(AsWalked(p));
    exit := None;
  }

  /** Where no colour string is a `#` form, the walk gives what the current analyzer's walk gives. */
  lemma SeeAllAgrees(chain: seq<C4.Node>)
    requires forall i :: 0 <= i < |chain| ==> !StartsWith(Strip(Lower(chain[i].background)), "#")
    ensures SeeAll(chain) == C4.SeeAll(chain)
  {
    forall i | 0 <= i < |chain|
      ensures See(chain[i]) == C4.See(chain[i])
    {
      SeeAgrees(chain[i]);
    }
  }

  /** Away from the `#` forms one element is seen alike. */
  lemma SeeAgrees(n: C4.Node)
    requires !StartsWith(Strip(Lower(n.background)), "#")
    ensures See(n) == C4.See(n)
  {
    AgreesWithV4(n.background);
    WalkedFromV4(C4.ParseColor(n.background));
  }

  lemma WalkAgrees(doc: string, chain: seq<C4.Node>)
    requires !StartsWith(Strip(Lower(doc)), "#")
    requires forall i :: 0 <= i < |chain| ==> !StartsWith(Strip(Lower(chain[i].background)), "#")
    ensures EffectiveBackground(doc, chain) == C4.EffectiveBackground(doc, chain)
  {
    AgreesWithV4(doc);
    WalkedFromV4(C4.ParseColor(doc));
    SeeAllAgrees(chain);
  }

  /** The walk reads a converted result of the current parser as that result. */
  lemma WalkedFromV4(p: C4.Parsed)
    ensures AsWalked(FromV4(p)) == p
  {
    match p
      case Colour(c) =>
      case NoColour =>
      case ParseError =>
  }

  /**
   * A `#` document background makes the walk raise before it starts, where
   * the current analyzer (whose `#` forms carry alpha 1.0) falls back to it.
   */
  lemma HexDocumentEscapes()
    ensures EffectiveBackground("#ffffff", []) == C4.BgError
    ensures C4.EffectiveBackground("#ffffff", []) == C4.Bg(C4.White)
  {
    assert "#ffffff" == "#" + HexByte(255) + HexByte(255) + HexByte(255);
    HexIsTriple(255, 255, 255);
  }
}
