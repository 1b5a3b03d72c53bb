/**
 * The decisions of the second analyzer's checks (v2/main.py): the heading
 * scan of the HTML-structure check, and the `_check_*` family that scores a
 * prompt's adherence checks. Whatever the browser observes (whether an
 * element was found and shown, its text, an attribute, a computed style,
 * source indices) is an input.
 */
module ChecksV2 {
  import opened Wrappers
  import opened Text
  import opened Findings
  import C = ChecksV4
  import C4 = ColourV4
  import C2 = ColourV2
  import opened Lexemes

  /** The finding a check adds: all of its points when it passed, none otherwise. */
  function Scored(category: string, name: string, points: real, passed: bool): (f: Finding)
    ensures f.category == category && f.check == name && f.max == points
    ensures passed <==> f.status == Pass
    ensures points >= 0.0 ==> 0.0 <= f.earned <= f.max
    ensures f.earned == (if passed then points else 0.0)
  {
    if passed then Finding(category, name, points, points, Pass) else Finding(category, name, 0.0, points, Fail)
  }

  // ---------------------------------------------------------------------------
  // Headings (part of `check_html_structure_semantics`)
  // ---------------------------------------------------------------------------

  /** `check_points["H1 Count"]` and `check_points["Heading Order Logic"]`. */
  const H1Points: real := 1.0
  const OrderPoints: real := 2.0

  /**
   * The heading order the scan accepts, over the levels of the visible
   * headings in reading order: the first is an h1 whenever the page has an
   * h1, and no heading is more than one level below the heading before it.
   */
  predicate OrderOk(levels: seq<nat>) {
    && (levels == [] || levels[0] == 1 || 1 !in levels)
    && forall i :: 0 < i < |levels| ==> levels[i] <= levels[i - 1] + 1
  }

  /**
   * The scan over the visible headings, with `last_level` and `order_ok`:
   * a first heading other than h1 while some h1 exists clears the flag,
   * and a jump of more than one level clears it and stops the scan.
   */
  method ScanOrder(levels: seq<nat>) returns (orderOk: bool)
    ensures orderOk == OrderOk(levels)
  {
    var lastLevel := 0;
    orderOk := true;
    var i := 0;
    while i < |levels|
      invariant 0 <= i <= |levels|
      invariant i > 0 ==> lastLevel == levels[i - 1]
      invariant orderOk <==> (i == 0 || levels[0] == 1 || 1 !in levels) &&
                             forall k :: 0 < k < i ==> levels[k] <= levels[k - 1] + 1
    {
      var level := levels[i];
      if i == 0 && level != 1 && 1 in levels {
        orderOk := false;
      }
      if i > 0 && level > lastLevel + 1 {
        orderOk := false;
        break;
      }
      lastLevel := level;
      i := i + 1;
    }
  }

  /**
   * The two heading findings: "H1 Count" passes with exactly one visible h1,
   * "Heading Order Logic" when there are visible headings in an accepted
   * order; without visible headings both fail.
   */
  method CheckHeadings(category: string, levels: seq<nat>) returns (h1: Finding, order: Finding)
    ensures h1 == Scored(category, "H1 Count", H1Points, multiset(levels)[1] == 1)
    ensures order == Scored(category, "Heading Order Logic", OrderPoints, levels != [] && OrderOk(levels))
    ensures levels == [] ==> h1.status == Fail && order.status == Fail
  {
    if levels == [] {
      h1 := Scored(category, "H1 Count", H1Points, false);
      order := Scored(category, "Heading Order Logic", OrderPoints, false);
      return;
    }
    h1 := Scored(category, "H1 Count", H1Points, multiset(levels)[1] == 1);
    var ok := ScanOrder(levels);
    order := Scored(category, "Heading Order Logic", OrderPoints, ok);
  }

  /** In an accepted order that opens with an h1, the heading at position `i` is at most an h(i+1). */
  lemma {:induction false} OrderDepthBound(levels: seq<nat>, i: nat)
    requires OrderOk(levels) && levels != [] && levels[0] == 1
    requires i < |levels|
    ensures levels[i] <= i + 1
  {
    if i > 0 {
      OrderDepthBound(levels, i - 1);
    }
  }

  /** A page with an h1 is accepted only when its first heading is that h1. */
  lemma H1FirstWhenPresent(levels: seq<nat>)
    requires 1 in levels && OrderOk(levels)
    ensures levels[0] == 1
  {
  }

  // ---------------------------------------------------------------------------
  // `_check_element_presence` and `_check_element_order`
  // ---------------------------------------------------------------------------

  /**
   * With `should_not_exist`, only an element not found at all passes (a
   * hidden one fails); otherwise the element must be found and shown.
   */
  function PresencePasses(el: C.Found, shouldNotExist: bool): (passed: bool)
    ensures shouldNotExist ==> (passed <==> !el.Present())
    ensures !shouldNotExist ==> (passed <==> el.Visible())
  {
    if shouldNotExist then el == C.Missing else el == C.Shown
  }

  /**
   * The two analyzers agree except on a hidden element that should not
   * exist, which fails here and passes in the current analyzer.
   */
  lemma PresenceAgainstV4(el: C.Found, shouldNotExist: bool)
    ensures PresencePasses(el, shouldNotExist) != C.Presence(el, shouldNotExist) <==> el == C.Hidden && shouldNotExist
  {
  }

  /** Every index is at most every later one. */
  predicate Sorted(xs: seq<int>) {
    forall i, j :: 0 <= i <= j < |xs| ==> xs[i] <= xs[j]
  }

  /** No index is smaller than the one before it. */
  predicate AdjacentOrdered(xs: seq<int>) {
    forall i :: 0 < i < |xs| ==> xs[i - 1] <= xs[i]
  }

  /** Checking neighbours is enough: a list whose neighbours are in order is sorted. */
  lemma {:induction false} AdjacentIsSorted(xs: seq<int>)
    ensures AdjacentOrdered(xs) <==> Sorted(xs)
    decreases |xs|
  {
    if AdjacentOrdered(xs) && |xs| > 1 {
      var n := |xs| - 1;
      AdjacentIsSorted(xs[..n]);
      assert Sorted(xs[..n]);
      forall i, j | 0 <= i <= j < |xs|
        ensures xs[i] <= xs[j]
      {
        if j == n && i < n {
          assert xs[..n][i] <= xs[..n][n - 1];
        } else if j < n {
          assert xs[..n][i] <= xs[..n][j];
        }
      }
    }
  }

  /**
   * `_check_element_order`: at least two selectors, each element found and
   * shown, and source indices (none when the script failed) in order.
   */
  predicate OrderPasses(found: seq<C.Found>, indices: Option<seq<int>>) {
    && |found| >= 2
    && (forall k :: 0 <= k < |found| ==> found[k].Visible())
    && indices.Some?
    && Sorted(indices.value)
  }

  /**
   * The index scan of `_check_element_order`: the first index smaller than
   * its predecessor clears `is_ordered` and ends the scan (the exception for
   * equal indices sits under a strict comparison and never applies).
   */
  method CheckOrder(found: seq<C.Found>, indices: Option<seq<int>>) returns (passed: bool)
    ensures passed == OrderPasses(found, indices)
  {
    if |found| < 2 {
      return false;
    }
    var k := 0;
    while k < |found|
      invariant 0 <= k <= |found|
      invariant forall m :: 0 <= m < k ==> found[m].Visible()
    {
      if found[k] != C.Shown {
        return false;
      }
      k := k + 1;
    }
    if indices.None? {
      return false;
    }
    var xs := indices.value;
    var isOrdered := true;
    var i := 0;
    while i < |xs|
      invariant 0 <= i <= |xs|
      invariant isOrdered
      invariant forall m :: 0 < m < i ==> xs[m - 1] <= xs[m]
    {
      if i > 0 && xs[i] < xs[i - 1] {
        isOrdered := false;
        break;
      }
      i := i + 1;
    }
    AdjacentIsSorted(xs);
    passed := isOrdered;
  }

  // ---------------------------------------------------------------------------
  // `_check_element_count`
  // ---------------------------------------------------------------------------

  /**
   * `expected_count` asks for equality; otherwise `min_count` with
   * `max_count` is an inclusive range and `min_count` alone a lower bound.
   * A `max_count` alone, or nothing, is an invalid configuration and fails.
   * Against the current analyzer's `_compare_counts` with the `equals`
   * comparator: the same verdict whenever an expected count or a minimum is
   * given.
   */
  function CountPasses(actual: nat, expected: Option<int>, min: Option<int>, max: Option<int>): (passed: bool)
    ensures passed <==> (expected.Some? || min.Some?) && C.CompareCounts(actual, expected, "equals", min, max)
  {
    if expected.Some? then actual == expected.value
    else if min.Some? && max.Some? then min.value <= actual <= max.value
    else if min.Some? then actual >= min.value
    else false
  }

  /** A maximum alone fails even when the count is within it, where the current analyzer passes. */
  lemma MaxAloneFails(actual: nat, max: int)
    requires actual <= max
    ensures !CountPasses(actual, None, None, Some(max))
    ensures C.CompareCounts(actual, None, "equals", None, Some(max))
  {
  }

  // ---------------------------------------------------------------------------
  // `_check_text_content`
  // ---------------------------------------------------------------------------

  /** The defaults of `match_type` and `min_similarity`. */
  const DefaultMatchType: string := "exact"
  const DefaultMinSimilarity: real := 0.85

  /**
   * The element must be found and shown. Both texts are stripped; `exact`
   * and `contains` compare them as they are, `similar` compares the
   * lower-cased texts' uninterpreted similarity ratio with `minSimilarity`.
   * Any other match type (named without regard to case) fails.
   */
  function TextPasses(el: C.Found, text: string, expectedRaw: string, matchType: string,
                      minSimilarity: real, similarity: (string, string) -> real): (passed: bool)
    ensures passed ==> el.Visible()
    ensures Lower(matchType) !in {"exact", "contains", "similar"} ==> !passed
  {
    var actual := Strip(text);
    var expected := Strip(expectedRaw);
    var mt := Lower(matchType);
    el.Visible() &&
    if mt == "exact" then actual == expected
    else if mt == "contains" then Contains(actual, expected)
    else if mt == "similar" then similarity(Lower(actual), Lower(expected)) >= minSimilarity
    else false
  }

  /** `exact` and `contains` decide as the current analyzer does with `case_sensitive` set. */
  lemma TextAsCaseSensitive(el: C.Found, text: string, expectedRaw: string, matchType: string,
                            minSimilarity: real, similarity: (string, string) -> real,
                            regex: (string, string, bool) -> Option<bool>)
    requires Lower(matchType) in {"exact", "contains"}
    ensures TextPasses(el, text, expectedRaw, matchType, minSimilarity, similarity) ==
            C.TextMatches(el, text, expectedRaw, matchType, true, minSimilarity, similarity, regex)
  {
  }

  /** `similar` decides as the current analyzer does without `case_sensitive`. */
  lemma SimilarAsCaseInsensitive(el: C.Found, text: string, expectedRaw: string, matchType: string,
                                 minSimilarity: real, similarity: (string, string) -> real,
                                 regex: (string, string, bool) -> Option<bool>)
    requires Lower(matchType) == "similar"
    ensures TextPasses(el, text, expectedRaw, matchType, minSimilarity, similarity) ==
            C.TextMatches(el, text, expectedRaw, matchType, false, minSimilarity, similarity, regex)
  {
  }

  /** A text that matches exactly also contains the expected text. */
  lemma ExactImpliesContains(el: C.Found, text: string, expectedRaw: string, exact: string, contains: string,
                             minSimilarity: real, similarity: (string, string) -> real)
    requires Lower(exact) == "exact" && Lower(contains) == "contains"
    requires TextPasses(el, text, expectedRaw, exact, minSimilarity, similarity)
    ensures TextPasses(el, text, expectedRaw, contains, minSimilarity, similarity)
  {
    ContainsSelf(Strip(text));
  }

  // ---------------------------------------------------------------------------
  // `_check_attribute_value`
  // ---------------------------------------------------------------------------

  /**
   * The element must be found (shown or not). A boolean expectation is met
   * when the attribute's presence equals it; `None` asks for absence; on
   * the `class` attribute with `class_contains` the expected text must be
   * one of the class tokens; otherwise the `str` texts are compared.
   */
  function AttributePasses(found: bool, attrName: string, expected: C.Expected, actual: Option<string>,
                           classContains: bool): (passed: bool)
    ensures passed ==> found
    ensures found && expected.Flag? ==> (passed <==> expected.b == actual.Some?)
    ensures found && expected.Null? ==> (passed <==> actual.None?)
  {
    if !found then false
    else match expected
      case Flag(b) => actual.Some? == b
      case Null => actual.None?
      case Text(s) =>
        if Lower(attrName) == "class" && classContains then s in C.ClassTokens(actual)
        else C.AttrStr(actual) == s
      case Texts(_, repr) =>
        if Lower(attrName) == "class" && classContains then false else C.AttrStr(actual) == repr
      case Other(repr) =>
        if Lower(attrName) == "class" && classContains then false else C.AttrStr(actual) == repr
  }

  /** Away from booleans and `class_contains`, the current analyzer's plain comparison decides alike. */
  lemma AttributeAsV4(attrName: string, expected: C.Expected, actual: Option<string>, classContains: bool)
    requires !expected.Flag?
    requires Lower(attrName) != "class" || !classContains
    ensures AttributePasses(true, attrName, expected, actual, classContains) ==
            C.AttributeMatches(true, attrName, expected, actual, false, false)
  {
  }

  /** `class_contains` with one class name is the current analyzer's `class_contains_any` with that name. */
  lemma ClassContainsAsAny(attrName: string, name: string, actual: Option<string>)
    requires Lower(attrName) == "class"
    ensures AttributePasses(true, attrName, C.Text(name), actual, true) ==
            C.AttributeMatches(true, attrName, C.Text(name), actual, false, true)
  {
    assert C.ExpectedClasses(C.Text(name)) == {name};
    var tokens := C.ClassTokens(actual);
    if name in tokens {
      assert name in {name} * tokens;
    } else {
      assert {name} * tokens == {};
    }
  }

  /** An attribute whose value is the text "false" counts as present here, and as absent in the current analyzer. */
  lemma FalseTextIsPresent(attrName: string)
    ensures AttributePasses(true, attrName, C.Flag(true), Some("false"), false)
    ensures !C.AttributeMatches(true, attrName, C.Flag(true), Some("false"), false, false)
  {
  }

  // ---------------------------------------------------------------------------
  // `_check_css_property`
  // ---------------------------------------------------------------------------

  /** A parse that gave a colour, as a 3-tuple or a 4-tuple. */
  predicate IsColour(p: C2.Parsed) {
    p.Rgb3? || p.Rgba4?
  }

  /** The red, green and blue of a parsed colour, whichever tuple the parser gave. */
  function RgbPart(p: C2.Parsed): C4.Rgb
    requires IsColour(p)
  {
    if p.Rgb3? then p.rgb else C4.Rgb(p.rgba.r, p.rgba.g, p.rgba.b)
  }

  /**
   * The element must be found and shown and its computed value readable
   * (`None` when reading it raised, which records a failure). A property whose
   * name contains "color" compares parsed colours on red, green and blue only,
   * or, when neither parses to a colour, the raw texts; a colour text that
   * does not parse raises, which fails the check. Any other property compares
   * the stripped texts.
   */
  function CssPasses(el: C.Found, property: string, expected: string, actual: Option<string>): (passed: bool)
    ensures passed ==> el.Visible() && actual.Some?
    ensures actual.Some? && !Contains(Lower(property), "color") ==>
              (passed <==> el.Visible() && Strip(actual.value) == Strip(expected))
    ensures actual.Some? && Contains(Lower(property), "color") &&
            (C2.ParseColor(actual.value).ParseError? || C2.ParseColor(expected).ParseError?) ==>
              !passed
    ensures actual.Some? && Contains(Lower(property), "color") &&
            IsColour(C2.ParseColor(actual.value)) && IsColour(C2.ParseColor(expected)) ==>
              (passed <==> el.Visible() && RgbPart(C2.ParseColor(actual.value)) == RgbPart(C2.ParseColor(expected)))
    ensures actual.Some? && Contains(Lower(property), "color") &&
            (C2.ParseColor(actual.value).NoColour? || C2.ParseColor(expected).NoColour?) ==>
              (passed <==> el.Visible() && C2.ParseColor(actual.value) == C2.ParseColor(expected) == C2.NoColour
                           && actual.value == expected)
  {
    el.Visible() && actual.Some? &&
    if Contains(Lower(property), "color") then
      var a := C2.ParseColor(actual.value);
      var e := C2.ParseColor(expected);
      if a.ParseError? || e.ParseError? then false
      else if !a.NoColour? && !e.NoColour? then RgbPart(a) == RgbPart(e)
      else a.NoColour? && e.NoColour? && actual.value == expected
    else Strip(actual.value) == Strip(expected)
  }

  /** A shown element whose value is the expected text passes, unless it is a colour text that does not parse. */
  lemma CssReflexive(property: string, value: string)
    requires Contains(Lower(property), "color") ==> !C2.ParseColor(value).ParseError?
    ensures CssPasses(C.Shown, property, value, Some(value))
  {
  }

  /** Colours are compared without alpha: a translucent colour matches its opaque hex spelling. */
  lemma CssIgnoresAlpha(property: string, r: nat, g: nat, b: nat, actual: string)
    requires Contains(Lower(property), "color")
    requires r < 256 && g < 256 && b < 256
    requires var p := C2.ParseColor(actual); p.Rgba4? && p.rgba.r == r && p.rgba.g == g && p.rgba.b == b
    ensures CssPasses(C.Shown, property, "#" + HexByte(r) + HexByte(g) + HexByte(b), Some(actual))
  {
    C2.HexIsTriple(r, g, b);
  }

  // ---------------------------------------------------------------------------
  // `_check_interaction`
  // ---------------------------------------------------------------------------

  /** The outcome an interaction is checked against, as observed after the action. */
  datatype InteractionOutcome =
    | PresenceOutcome(target: C.Found, shouldNotExist: bool, expectVisible: bool, selectorTypeGiven: bool)
    | AttributeOutcome(found: bool, expected: C.Expected, actual: Option<string>)
    | OtherOutcome(kind: string)
    | NoOutcome

  /** Python's `str` of an expected attribute value. */
  function PyStr(e: C.Expected): string {
    match e
      case Flag(b) => if b then "True" else "False"
      case Null => "None"
      case _ => C.ExpectedStr(e)
  }

  /**
   * An element-presence outcome passes when the target is absent (with
   * `should_not_exist`), shown (when expected visible, the default) or not
   * shown; an attribute outcome when the target is found and a boolean
   * expectation matches presence or the `str` texts are equal. Other outcome
   * types, and a missing outcome, fail. A presence outcome without a
   * `selector_type` fails too: its lookup config then carries `None`, whose
   * `lower()` raises, and the interaction's handler records a failure.
   */
  function OutcomePasses(o: InteractionOutcome): (passed: bool)
    ensures o.PresenceOutcome? && !o.selectorTypeGiven ==> !passed
    ensures o.PresenceOutcome? && o.selectorTypeGiven && o.shouldNotExist ==> (passed <==> o.target == C.Missing)
    ensures o.PresenceOutcome? && o.selectorTypeGiven && !o.shouldNotExist ==> (passed <==> (o.target.Visible() == o.expectVisible))
    ensures o.AttributeOutcome? && o.expected.Flag? ==> (passed <==> o.found && o.actual.Some? == o.expected.b)
    ensures o.AttributeOutcome? && !o.expected.Flag? ==> (passed <==> o.found && C.AttrStr(o.actual) == PyStr(o.expected))
    ensures o.OtherOutcome? || o.NoOutcome? ==> !passed
  {
    match o
      case PresenceOutcome(t, shouldNotExist, expectVisible, typed) =>
        typed &&
        if shouldNotExist then t == C.Missing else if expectVisible then t.Visible() else !t.Visible()
      case AttributeOutcome(found, e, a) =>
        found && if e.Flag? then a.Some? == e.b else C.AttrStr(a) == PyStr(e)
      case _ => false
  }

  /**
   * The trigger must be found and shown, the action (named without regard to
   * case) must be `click` or `hover` and must not raise, and the outcome must
   * pass.
   */
  function InteractionPasses(trigger: C.Found, action: string, raised: bool, outcome: InteractionOutcome): (passed: bool)
    ensures passed <==> trigger.Visible() && Lower(action) in {"click", "hover"} && !raised && OutcomePasses(outcome)
  {
    if !trigger.Visible() then false
    else if Lower(action) != "click" && Lower(action) != "hover" then false
    else !raised && OutcomePasses(outcome)
  }

  /** An expected `None` in an attribute outcome is compared as the text "None", which an attribute may carry. */
  lemma NoneOutcomeIsText()
    ensures OutcomePasses(AttributeOutcome(true, C.Null, None))
    ensures OutcomePasses(AttributeOutcome(true, C.Null, Some("None")))
  {
  }
}
