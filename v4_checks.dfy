/**
 * The decision logic of the v4 adherence checks and interaction outcomes
 * (`_compare_counts`, `_verify_element_*`, `_verify_text_content`,
 * `_verify_attribute_value`, `_verify_css_property`, the non-script parts of
 * `_verify_single_outcome`, and the viewport filter of `check_prompt_adherence`).
 *
 * Every browser observation (an element found or not, displayed or not, the
 * text of an attribute, a computed style, the current URL, a count of matches)
 * is an input value. An exception raised inside a check makes the caller record
 * a failure, so each check here answers `false` where the Python code raises.
 */
module ChecksV4 {
  import opened Text
  import opened Wrappers
  import ColourV4

  /** What a selector lookup observed: no element, an element that is not displayed, or a displayed one. */
  datatype Found = Missing | Hidden | Shown {
    predicate Present() { this != Missing }
    predicate Visible() { this == Shown }
  }

  // ---------------------------------------------------------------------------
  // Count comparison (`_compare_counts`)
  // ---------------------------------------------------------------------------

  /**
   * The set of counts a count check accepts: `lo <= n <= hi` (an absent bound is
   * no bound) and `n != except` when `except` is given.
   */
  datatype Accepted = Accepted(lo: Option<int>, hi: Option<int>, except: Option<int>) {
    predicate Admits(n: int) {
      (lo.None? || lo.value <= n) && (hi.None? || n <= hi.value) && (except.None? || n != except.value)
    }
  }

  /**
   * The counts accepted by the parameters of a count check, or `None` when the
   * parameters are invalid (an unknown comparator, or no parameter at all).
   */
  function AcceptedCounts(expected: Option<int>, comparison: string, min: Option<int>, max: Option<int>): Option<Accepted> {
    match expected
    case Some(e) =>
      var c := Lower(comparison);
      if c == "equals" then Some(Accepted(Some(e), Some(e), None))
      else if c == "not_equals" then Some(Accepted(None, None, Some(e)))
      else if c == "greater_than" then Some(Accepted(Some(e + 1), None, None))
      else if c == "less_than" then Some(Accepted(None, Some(e - 1), None))
      else if c == "greater_than_or_equals" then Some(Accepted(Some(e), None, None))
      else if c == "less_than_or_equals" then Some(Accepted(None, Some(e), None))
      else None
    case None =>
      if min.None? && max.None? then None else Some(Accepted(min, max, None))
  }

  /**
   * `_compare_counts`: `expected` with one of six comparators (named without
   * regard to case) takes precedence over `min`/`max`, which form an inclusive
   * range or a one-sided bound.
   */
  function CompareCounts(actual: int, expected: Option<int>, comparison: string, min: Option<int>, max: Option<int>): (passed: bool)
    ensures passed <==> (var acc := AcceptedCounts(expected, comparison, min, max); acc.Some? && acc.value.Admits(actual))
  {
    var c := Lower(comparison);
    if expected.Some? then
      var e := expected.value;
      if c == "equals" then actual == e
      else if c == "not_equals" then actual != e
      else if c == "greater_than" then actual > e
      else if c == "less_than" then actual < e
      else if c == "greater_than_or_equals" then actual >= e
      else if c == "less_than_or_equals" then actual <= e
      else false
    else if min.Some? && max.Some? then min.value <= actual <= max.value
    else if min.Some? then actual >= min.value
    else if max.Some? then actual <= max.value
    else false
  }

  /** Comparator names are matched without regard to case. */
  lemma CompareCountsCaseInsensitive(actual: int, expected: Option<int>, comparison: string, min: Option<int>, max: Option<int>)
    ensures CompareCounts(actual, expected, Lower(comparison), min, max) == CompareCounts(actual, expected, comparison, min, max)
  {
    LowerIdempotent(comparison);
  }

  /** An expected count makes `min` and `max` irrelevant. */
  lemma CompareCountsExpectedFirst(actual: int, e: int, comparison: string, min: Option<int>, max: Option<int>)
    ensures CompareCounts(actual, Some(e), comparison, min, max) == CompareCounts(actual, Some(e), comparison, None, None)
  {
  }

  /**
   * Invalid parameters fail whatever the count; an expected count with a known
   * comparator accepts some count.
   */
  lemma CompareCountsInvalid(expected: Option<int>, comparison: string, min: Option<int>, max: Option<int>)
    ensures AcceptedCounts(expected, comparison, min, max).None? ==>
            forall n: int :: !CompareCounts(n, expected, comparison, min, max)
    ensures expected.Some? && AcceptedCounts(expected, comparison, min, max).Some? ==>
            exists n: int :: CompareCounts(n, expected, comparison, min, max)
  {
    var acc := AcceptedCounts(expected, comparison, min, max);
    if expected.Some? && acc.Some? {
      var e := expected.value;
      var a := acc.value;
      var n := if a.lo.Some? then a.lo.value else if a.hi.Some? then a.hi.value else e + 1;
      assert acc.value.Admits(n);
      assert CompareCounts(n, expected, comparison, min, max);
    }
  }

  /** A range check is satisfiable exactly when its range is non-empty: `min <= max`. */
  lemma CompareCountsRange(actual: int, lo: int, hi: int)
    ensures CompareCounts(actual, None, "equals", Some(lo), Some(hi)) <==> lo <= actual <= hi
  {
  }

  /**
   * The strict and non-strict comparators differ only at the expected value
   * itself, whatever the case of their names.
   */
  lemma CompareCountsStrictness(actual: int, e: int, ge: string, gt: string, le: string, lt: string, eq: string)
    requires Lower(ge) == "greater_than_or_equals" && Lower(gt) == "greater_than"
    requires Lower(le) == "less_than_or_equals" && Lower(lt) == "less_than" && Lower(eq) == "equals"
    ensures CompareCounts(actual, Some(e), ge, None, None) <==>
            (CompareCounts(actual, Some(e), gt, None, None) || CompareCounts(actual, Some(e), eq, None, None))
    ensures CompareCounts(actual, Some(e), le, None, None) <==>
            (CompareCounts(actual, Some(e), lt, None, None) || CompareCounts(actual, Some(e), eq, None, None))
  {
  }

  /** `not_equals` decides the opposite of `equals`, whatever the case of their names. */
  lemma NotEqualsNegates(actual: int, e: int, ne: string, eq: string)
    requires Lower(ne) == "not_equals" && Lower(eq) == "equals"
    ensures CompareCounts(actual, Some(e), ne, None, None) == !CompareCounts(actual, Some(e), eq, None, None)
  {
  }

  // ---------------------------------------------------------------------------
  // Presence and order (`_verify_element_presence`, `_verify_element_order`)
  // ---------------------------------------------------------------------------

  /** Passes when the element is visible, or, with `should_not_exist`, when it is not. */
  function Presence(el: Found, shouldNotExist: bool): (passed: bool)
    ensures !shouldNotExist ==> (passed <==> el.Present() && el.Visible())
  {
    if shouldNotExist then !el.Visible() else el.Visible()
  }

  /** `should_not_exist` inverts the verdict for every observation. */
  lemma PresenceInverts(el: Found)
    ensures Presence(el, true) == !Presence(el, false)
  {
  }

  /** No two adjacent source indices are out of order, ignoring any pair that holds `-1`. */
  predicate AdjacentInOrder(idx: seq<int>) {
    forall i :: 1 <= i < |idx| ==> !(idx[i] < idx[i - 1] && idx[i] != -1 && idx[i - 1] != -1)
  }

  predicate Sorted(idx: seq<int>) {
    forall i, j :: 0 <= i <= j < |idx| ==> idx[i] <= idx[j]
  }

  /**
   * `_verify_element_order`: at least two selectors, every one found and
   * displayed, the source indices read (`None` when the script raised), and no
   * adjacent pair out of order.
   */
  function Order(found: seq<Found>, indices: Option<seq<int>>): (passed: bool)
    ensures passed <==> (|found| >= 2 && (forall k :: 0 <= k < |found| ==> found[k].Visible()) &&
                         indices.Some? && AdjacentInOrder(indices.value))
  {
    if |found| < 2 then false
    else if exists k :: 0 <= k < |found| && !found[k].Visible() then false
    else indices.Some? && AdjacentInOrder(indices.value)
  }

  /** Without `-1` entries, the adjacent-pair test is exactly sortedness of the indices. */
  lemma AdjacentInOrderIsSorted(idx: seq<int>)
    requires forall i :: 0 <= i < |idx| ==> idx[i] != -1
    ensures AdjacentInOrder(idx) <==> Sorted(idx)
  {
    if AdjacentInOrder(idx) {
      forall i, j | 0 <= i <= j < |idx|
        ensures idx[i] <= idx[j]
      {
        AdjacentChain(idx, i, j);
      }
    }
  }

  lemma {:induction false} AdjacentChain(idx: seq<int>, i: int, j: int)
    requires forall k :: 0 <= k < |idx| ==> idx[k] != -1
    requires AdjacentInOrder(idx)
    requires 0 <= i <= j < |idx|
    ensures idx[i] <= idx[j]
    decreases j - i
  {
    if i < j {
      AdjacentChain(idx, i, j - 1);
    }
  }

  /** An element outside the document (`-1`) breaks the chain, so order around it is not checked. */
  lemma MissingIndexSkipsComparison()
    ensures AdjacentInOrder([5, -1, 3])
    ensures !Sorted([5, -1, 3])
  {
    var s := [5, -1, 3];
    assert s[0] > s[2];
  }

  /**
   * Displayed elements whose source indices (all inside the document) are in
   * ascending order pass the order check, and a descending pair fails it.
   */
  lemma OrderSortedPasses(found: seq<Found>, idx: seq<int>)
    requires |found| >= 2 && forall k :: 0 <= k < |found| ==> found[k].Visible()
    requires forall i :: 0 <= i < |idx| ==> idx[i] != -1
    ensures Order(found, Some(idx)) <==> Sorted(idx)
  {
    AdjacentInOrderIsSorted(idx);
  }

  // ---------------------------------------------------------------------------
  // Text content (`_verify_text_content`)
  // ---------------------------------------------------------------------------

  /**
   * `_verify_text_content`. Both texts are stripped; without `case_sensitive`
   * both are lower-cased. `exact` compares, `contains` looks for the expected
   * text in the actual one, `similar` compares an uninterpreted similarity ratio
   * with `minSimilarity`, `regex` asks an uninterpreted matcher (`None` for an
   * invalid pattern, which fails). Any other match type fails.
   */
  function TextMatches(el: Found, text: string, expectedRaw: string, matchType: string, caseSensitive: bool,
                       minSimilarity: real, similarity: (string, string) -> real,
                       regex: (string, string, bool) -> Option<bool>): (passed: bool)
    ensures passed ==> el.Visible()
    ensures el.Visible() && Lower(matchType) == "exact" ==>
              (passed <==> Fold(Strip(text), caseSensitive) == Fold(Strip(expectedRaw), caseSensitive))
    ensures el.Visible() && Lower(matchType) == "contains" ==>
              (passed <==> Contains(Fold(Strip(text), caseSensitive), Fold(Strip(expectedRaw), caseSensitive)))
    ensures Lower(matchType) !in {"exact", "contains", "similar", "regex"} ==> !passed
  {
    el.Visible() && TextVerdict(Strip(text), expectedRaw, matchType, caseSensitive, minSimilarity, similarity, regex)
  }

  /** The comparison of `_verify_text_content` once the element's text has been read and stripped. */
  function TextVerdict(actual: string, expectedRaw: string, matchType: string, caseSensitive: bool,
                       minSimilarity: real, similarity: (string, string) -> real,
                       regex: (string, string, bool) -> Option<bool>): bool
  {
    var expected := Strip(expectedRaw);
    var mt := Lower(matchType);
    var opActual := Fold(actual, caseSensitive);
    var opExpected := Fold(expected, caseSensitive);
    if mt == "exact" then opActual == opExpected
    else if mt == "contains" then Contains(opActual, opExpected)
    else if mt == "similar" then similarity(opActual, opExpected) >= minSimilarity
    else if mt == "regex" then regex(expectedRaw, actual, caseSensitive).GetOr(false)
    else false
  }

  /** The text a comparison sees: unchanged, or lower-cased when case does not matter. */
  function Fold(s: string, caseSensitive: bool): string {
    if caseSensitive then s else Lower(s)
  }

  /** Leading and trailing whitespace of the element's text never matters. */
  lemma TextIgnoresSurroundingSpace(el: Found, text: string, expectedRaw: string, matchType: string, caseSensitive: bool,
                                    minSimilarity: real, similarity: (string, string) -> real,
                                    regex: (string, string, bool) -> Option<bool>)
    ensures TextMatches(el, Strip(text), expectedRaw, matchType, caseSensitive, minSimilarity, similarity, regex) ==
            TextMatches(el, text, expectedRaw, matchType, caseSensitive, minSimilarity, similarity, regex)
  {
    StripIdempotent(text);
  }

  /** Without `case_sensitive`, exact and contains matching do not see the case of the element's text. */
  lemma TextIgnoresCase(el: Found, text: string, expectedRaw: string, matchType: string,
                        minSimilarity: real, similarity: (string, string) -> real,
                        regex: (string, string, bool) -> Option<bool>)
    requires Lower(matchType) in {"exact", "contains"}
    ensures TextMatches(el, Lower(text), expectedRaw, matchType, false, minSimilarity, similarity, regex) ==
            TextMatches(el, text, expectedRaw, matchType, false, minSimilarity, similarity, regex)
  {
    StripLowerCommute(text);
    LowerIdempotent(Strip(text));
  }

  /** A case-sensitive match is also a case-insensitive one. */
  lemma TextCaseSensitiveIsStricter(el: Found, text: string, expectedRaw: string, matchType: string,
                                    minSimilarity: real, similarity: (string, string) -> real,
                                    regex: (string, string, bool) -> Option<bool>)
    requires Lower(matchType) in {"exact", "contains"}
    requires TextMatches(el, text, expectedRaw, matchType, true, minSimilarity, similarity, regex)
    ensures TextMatches(el, text, expectedRaw, matchType, false, minSimilarity, similarity, regex)
  {
    if Lower(matchType) == "contains" {
      ContainsLower(Strip(text), Strip(expectedRaw));
    }
  }

  /** An exact match is also a `contains` match. */
  lemma TextExactImpliesContains(el: Found, text: string, expectedRaw: string, exact: string, contains: string,
                                 caseSensitive: bool, minSimilarity: real, similarity: (string, string) -> real,
                                 regex: (string, string, bool) -> Option<bool>)
    requires Lower(exact) == "exact" && Lower(contains) == "contains"
    requires TextMatches(el, text, expectedRaw, exact, caseSensitive, minSimilarity, similarity, regex)
    ensures TextMatches(el, text, expectedRaw, contains, caseSensitive, minSimilarity, similarity, regex)
  {
    ContainsSelf(Fold(Strip(text), caseSensitive));
  }

  // ---------------------------------------------------------------------------
  // Attribute value (`_verify_attribute_value`)
  // ---------------------------------------------------------------------------

  /**
   * The configured `expected_value`: a boolean, `None`, a string, a list of
   * strings (with the text Python's `str` gives the list), or some other value
   * such as a number, given by its `str` text.
   */
  datatype Expected = Flag(b: bool) | Null | Text(s: string) | Texts(items: seq<string>, repr: string) | Other(repr: string)

  /** Python's `str` of the expected value (booleans and `None` never reach it). */
  function ExpectedStr(e: Expected): string
    requires !e.Flag? && !e.Null?
  {
    match e
    case Text(s) => s
    case Texts(_, r) => r
    case Other(r) => r
  }

  /** The class names the check asks for (an `Other` value is no class name, and is handled by the caller). */
  function ExpectedClasses(e: Expected): (names: set<string>)
    ensures e.Texts? ==> names == set i | 0 <= i < |e.items| :: e.items[i]
  {
    match e
    case Text(s) => {s}
    case Texts(items, _) => set i | 0 <= i < |items| :: items[i]
    case _ => {}
  }

  /** The class tokens of an attribute value; an absent attribute has none. */
  function ClassTokens(actual: Option<string>): set<string> {
    var ts := Tokens(actual.GetOr(""));
    set i | 0 <= i < |ts| :: ts[i]
  }

  /** Python's `str` of an attribute value: an absent one reads `None`. */
  function AttrStr(actual: Option<string>): string {
    actual.GetOr("None")
  }

  /**
   * `_verify_attribute_value`. A boolean expectation is met when the attribute's
   * presence (a value other than "false") equals it; `None` asks for absence; on
   * the `class` attribute `class_contains_all`/`class_contains_any` ask for all
   * or some of the expected class names among its tokens; otherwise the `str`
   * texts are compared.
   */
  function AttributeMatches(found: bool, attrName: string, expected: Expected, actual: Option<string>,
                            containsAll: bool, containsAny: bool): (passed: bool)
    ensures passed ==> found
    ensures found && expected.Flag? ==> (passed <==> expected.b == (actual.Some? && actual.value != "false"))
    ensures found && expected.Null? ==> (passed <==> actual.None?)
    ensures found && !expected.Flag? && !expected.Null? && !(Lower(attrName) == "class" && (containsAll || containsAny)) ==>
              (passed <==> AttrStr(actual) == ExpectedStr(expected))
  {
    if !found then false
    else match expected
      case Flag(b) => if actual.Some? && actual.value != "false" then b else !b
      case Null => actual.None?
      case _ =>
        if Lower(attrName) == "class" && containsAll then !expected.Other? && ExpectedClasses(expected) <= ClassTokens(actual)
        else if Lower(attrName) == "class" && containsAny then ExpectedClasses(expected) * ClassTokens(actual) != {}
        else AttrStr(actual) == ExpectedStr(expected)
  }

  /** Either class rule with a single expected string passes exactly when that string is a class token. */
  lemma ClassSingleName(attrName: string, name: string, actual: Option<string>, containsAll: bool, containsAny: bool)
    requires Lower(attrName) == "class" && (containsAll || containsAny)
    ensures AttributeMatches(true, attrName, Text(name), actual, containsAll, containsAny) <==>
            name in Tokens(actual.GetOr(""))
  {
    InClassTokens(actual, name);
    if containsAll {
      ClassAllOfOne(attrName, name, actual, containsAny);
    } else {
      ClassAnyOfOne(attrName, name, actual);
    }
  }

  lemma ClassAllOfOne(attrName: string, name: string, actual: Option<string>, containsAny: bool)
    requires Lower(attrName) == "class"
    ensures AttributeMatches(true, attrName, Text(name), actual, true, containsAny) <==> name in ClassTokens(actual)
  {
    assert ExpectedClasses(Text(name)) == {name};
  }

  lemma ClassAnyOfOne(attrName: string, name: string, actual: Option<string>)
    requires Lower(attrName) == "class"
    ensures AttributeMatches(true, attrName, Text(name), actual, false, true) <==> name in ClassTokens(actual)
  {
    var want, have := ExpectedClasses(Text(name)), ClassTokens(actual);
    assert want == {name};
    if name in have {
      assert name in want * have;
    }
  }

  /** A name is among the class tokens exactly when it occurs in the split attribute. */
  lemma InClassTokens(actual: Option<string>, name: string)
    ensures name in ClassTokens(actual) <==> name in Tokens(actual.GetOr(""))
  {
    var ts := Tokens(actual.GetOr(""));
    if name in ts {
      var i :| 0 <= i < |ts| && ts[i] == name;
      assert name in ClassTokens(actual);
    }
  }

  /** `class_contains_all` on a list passes exactly when every listed name is a class token. */
  lemma ClassContainsAll(attrName: string, items: seq<string>, repr: string, actual: Option<string>, containsAny: bool)
    requires Lower(attrName) == "class"
    ensures AttributeMatches(true, attrName, Texts(items, repr), actual, true, containsAny) <==>
            forall i :: 0 <= i < |items| ==> items[i] in Tokens(actual.GetOr(""))
  {
    var ts := Tokens(actual.GetOr(""));
    var want := ExpectedClasses(Texts(items, repr));
    var have := ClassTokens(actual);
    if want <= have {
      forall i | 0 <= i < |items| ensures items[i] in ts {
        assert items[i] in want;
      }
    }
    if forall i :: 0 <= i < |items| ==> items[i] in ts {
      forall x | x in want ensures x in have {
        var i :| 0 <= i < |items| && items[i] == x;
        var k :| 0 <= k < |ts| && ts[k] == x;
        assert ts[k] in have;
      }
    }
  }

  /** `class_contains_any` on a list passes exactly when some listed name is a class token. */
  lemma ClassContainsAny(attrName: string, items: seq<string>, repr: string, actual: Option<string>)
    requires Lower(attrName) == "class"
    ensures AttributeMatches(true, attrName, Texts(items, repr), actual, false, true) <==>
            exists i :: 0 <= i < |items| && items[i] in Tokens(actual.GetOr(""))
  {
    var ts := Tokens(actual.GetOr(""));
    var want := ExpectedClasses(Texts(items, repr));
    var have := ClassTokens(actual);
    if want * have != {} {
      var x :| x in want * have;
      var i :| 0 <= i < |items| && items[i] == x;
      var k :| 0 <= k < |ts| && ts[k] == x;
      assert items[i] in ts;
    }
    if exists i :: 0 <= i < |items| && items[i] in ts {
      var i :| 0 <= i < |items| && items[i] in ts;
      var k :| 0 <= k < |ts| && ts[k] == items[i];
      assert items[i] in want * have;
    }
  }

  /** An empty list of class names is contained in any class attribute, and intersects none. */
  lemma ClassEmptyList(attrName: string, repr: string, actual: Option<string>)
    requires Lower(attrName) == "class"
    ensures AttributeMatches(true, attrName, Texts([], repr), actual, true, false)
    ensures !AttributeMatches(true, attrName, Texts([], repr), actual, false, true)
  {
    assert ExpectedClasses(Texts([], repr)) == {};
  }

  /** A number is never a class name, so class checks with one always fail. */
  lemma ClassNumberNeverMatches(attrName: string, repr: string, actual: Option<string>, containsAll: bool, containsAny: bool)
    requires Lower(attrName) == "class" && (containsAll || containsAny)
    ensures !AttributeMatches(true, attrName, Other(repr), actual, containsAll, containsAny)
  {
  }

  // ---------------------------------------------------------------------------
  // CSS property (`_verify_css_property`)
  // ---------------------------------------------------------------------------

  /** The `font-weight` normalisation: "normal" reads "400" and "bold" reads "700". */
  function NormWeight(s: string): string {
    ReplaceAll(ReplaceAll(s, "normal", "400"), "bold", "700")
  }

  /**
   * Two colour values agree: when both parse to colours, on red, green and blue
   * alone (alpha is ignored); otherwise when their texts are equal. A value
   * whose parse raises fails the check.
   */
  function SameColour(actual: string, expected: string): (same: bool)
    ensures ColourV4.ParseColor(actual).ParseError? || ColourV4.ParseColor(expected).ParseError? ==> !same
    ensures ColourV4.ParseColor(actual).Colour? && ColourV4.ParseColor(expected).Colour? ==>
              (same <==> ColourV4.ParseColor(actual).c.Opaque() == ColourV4.ParseColor(expected).c.Opaque())
    ensures ColourV4.ParseColor(actual).NoColour? && !ColourV4.ParseColor(expected).ParseError? ==> (same <==> actual == expected)
    ensures ColourV4.ParseColor(expected).NoColour? && !ColourV4.ParseColor(actual).ParseError? ==> (same <==> actual == expected)
  {
    var pa := ColourV4.ParseColor(actual);
    var pe := ColourV4.ParseColor(expected);
    if pa.ParseError? || pe.ParseError? then false
    else if pa.Colour? && pe.Colour? then pa.c.Opaque() == pe.c.Opaque()
    else actual == expected
  }

  /**
   * `_verify_css_property`: the element must be found and displayed and its
   * computed value readable (`None` when reading raised). Both values are
   * stripped. A property whose lower-cased name contains "color" is compared as
   * colours, `font-weight` after normalisation, anything else as text.
   */
  function CssMatches(el: Found, propName: string, expectedRaw: string, actualRaw: Option<string>): (passed: bool)
    ensures passed ==> el.Visible() && actualRaw.Some?
    ensures el.Visible() && actualRaw.Some? && !Contains(Lower(propName), "color") && propName != "font-weight" ==>
              (passed <==> Strip(actualRaw.value) == Strip(expectedRaw))
    ensures el.Visible() && actualRaw.Some? && Contains(Lower(propName), "color") ==>
              (passed <==> SameColour(Strip(actualRaw.value), Strip(expectedRaw)))
    ensures el.Visible() && actualRaw.Some? && !Contains(Lower(propName), "color") && propName == "font-weight" ==>
              (passed <==> NormWeight(Strip(actualRaw.value)) == NormWeight(Strip(expectedRaw)))
  {
    if !el.Visible() || actualRaw.None? then false
    else
      var actual := Strip(actualRaw.value);
      var expected := Strip(expectedRaw);
      if Contains(Lower(propName), "color") then SameColour(actual, expected)
      else if propName == "font-weight" then NormWeight(actual) == NormWeight(expected)
      else actual == expected
  }

  /**
   * Any two spellings of the same weight match on `font-weight`: "bold" and
   * "700", or "normal" and "400", with surrounding whitespace ignored.
   */
  lemma CssWeightAliases(el: Found, actual: string, expected: string)
    requires el.Visible()
    requires (Strip(actual) in {"bold", "700"} && Strip(expected) in {"bold", "700"}) ||
             (Strip(actual) in {"normal", "400"} && Strip(expected) in {"normal", "400"})
    ensures CssMatches(el, "font-weight", expected, Some(actual))
  {
    NoColorInFontWeight();
    FontWeightAliases();
  }

  /** "font-weight" holds no "c", so no "color", in any case. */
  lemma NoColorInFontWeight()
    ensures !Contains(Lower("font-weight"), "color")
  {
    var s := "font-weight";
    assert Lower(s) == s;
    forall i | 0 <= i <= |s| - 5
      ensures !OccursAt(s, "color", i)
    {
      assert s[i] != 'c';
      assert s[i..i + 5][0] == s[i];
    }
  }

  /** Colours that differ only in alpha are the same colour to the check. */
  lemma SameColourIgnoresAlpha(actual: string, expected: string)
    requires ColourV4.ParseColor(actual).Colour? && ColourV4.ParseColor(expected).Colour?
    ensures SameColour(actual, expected) <==>
            ColourV4.ParseColor(actual).c.Opaque() == ColourV4.ParseColor(expected).c.Opaque()
  {
  }

  /** Equal texts that parse without error are the same colour. */
  lemma SameColourReflexive(v: string)
    requires !ColourV4.ParseColor(v).ParseError?
    ensures SameColour(v, v)
  {
  }

  /** "bold" and "700" are the same font weight, and so are "normal" and "400". */
  lemma FontWeightAliases()
    ensures NormWeight("bold") == NormWeight("700") == "700"
    ensures NormWeight("normal") == NormWeight("400") == "400"
  {
    assert !StartsWith("bold", "normal");
    assert ReplaceAll("bold", "normal", "400") == "bold" by {
      ReplaceAbsentShort("bold", "normal", "400");
    }
    assert ReplaceAll("700", "normal", "400") == "700" by {
      ReplaceAbsentShort("700", "normal", "400");
    }
    assert ReplaceAll("700", "bold", "700") == "700" by {
      ReplaceAbsentShort("700", "bold", "700");
    }
    assert ReplaceAll("normal", "normal", "400") == "400" by {
      assert StartsWith("normal", "normal");
      assert "normal"[6..] == [];
    }
    assert ReplaceAll("400", "normal", "400") == "400" by {
      ReplaceAbsentShort("400", "normal", "400");
    }
    assert ReplaceAll("400", "bold", "700") == "400" by {
      ReplaceAbsentShort("400", "bold", "700");
    }
    assert ReplaceAll("bold", "bold", "700") == "700" by {
      assert StartsWith("bold", "bold");
      assert "bold"[4..] == [];
    }
  }

  /** A string shorter than the pattern holds no occurrence of it, or one without its first letter. */
  lemma ReplaceAbsentShort(s: string, pat: string, rep: string)
    requires pat != [] && (|s| < |pat| || forall i :: 0 <= i < |s| ==> s[i] != pat[0])
    ensures ReplaceAll(s, pat, rep) == s
  {
    forall i | 0 <= i <= |s| - |pat|
      ensures !OccursAt(s, pat, i)
    {
      assert s[i..i + |pat|][0] == s[i];
    }
    ReplaceAbsent(s, pat, rep);
  }

  // ---------------------------------------------------------------------------
  // Custom scripts and the viewport filter
  // ---------------------------------------------------------------------------

  /**
   * The `custom_script_evaluates_true` adherence check: a script is required; a
   * required target element that is not found fails; otherwise the script's
   * truth value decides (`None` when it raised).
   */
  function CustomScript(script: string, hasSelector: bool, targetFound: bool, elementRequired: bool,
                        result: Option<bool>): (passed: bool)
    ensures passed <==> script != [] && !(hasSelector && !targetFound && elementRequired) && result == Some(true)
  {
    if script == [] then false
    else if hasSelector && !targetFound && elementRequired then false
    else result.GetOr(false)
  }

  /** A check applies to a viewport when it names no viewports, or names this one. */
  predicate Applies(viewports: seq<string>, current: string) {
    viewports == [] || current in viewports
  }

  // ---------------------------------------------------------------------------
  // Interaction outcomes (`_verify_single_outcome`)
  // ---------------------------------------------------------------------------

  /**
   * What the page shows when an outcome is evaluated: the outcome's target
   * element, its `class` attribute, the number of children matching the child
   * selector (when the target was found), the current URL, and the verdicts of
   * the parts the model leaves uninterpreted (scripts, regular expressions,
   * transition-end events).
   */
  datatype Page = Page(target: Found, classAttr: Option<string>, childCount: nat, url: string)

  datatype UrlMatch = UrlMatch(kind: string, part: string)

  /**
   * The outcome types of an interaction step, each with its configuration.
   * `AttributeChange`, `TextChange` and `CssChange` carry the verdict of the
   * corresponding check above; `Script`, `RegexUrl` and `AnimationEnds` carry
   * the verdict of code outside the model.
   */
  datatype Outcome =
    | AttributeChange(attributeVerdict: bool)
    | ClassChange(present: Option<string>, absent: Option<string>)
    | VisibilityChange(expectedVisibility: string)
    | TextChange(textVerdict: bool)
    | CssChange(cssVerdict: bool)
    | ElementExists(visibility: Option<string>)
    | ElementDoesNotExist
    | Script(script: string, scriptResult: Option<bool>)
    | NewElementCount(expected: Option<int>, comparison: string, min: Option<int>, max: Option<int>)
    | UrlChange(url: UrlMatch, regexVerdict: bool)
    | AnimationEnds(ended: bool)
    | UnknownOutcome

  /** The `visibility_change` outcome: "visible" wants a displayed target, "hidden" one that is not. */
  function VisibilityHolds(expectedVisibility: string, target: Found): (passed: bool)
    ensures Lower(expectedVisibility) == "visible" ==> (passed <==> target.Visible())
    ensures Lower(expectedVisibility) == "hidden" ==> (passed <==> !target.Visible())
    ensures Lower(expectedVisibility) !in {"visible", "hidden"} ==> !passed
  {
    var ev := Lower(expectedVisibility);
    (ev == "visible" && target.Visible()) || (ev == "hidden" && !target.Visible())
  }

  /** The `class_change` outcome: the named class present and/or the named class absent; at least one condition. */
  function ClassChangeHolds(target: Found, classAttr: Option<string>, present: Option<string>, absent: Option<string>): (passed: bool)
    ensures passed <==> target.Present() && (present.Some? || absent.Some?) &&
                        (present.None? || present.value in Tokens(classAttr.GetOr(""))) &&
                        (absent.None? || absent.value !in Tokens(classAttr.GetOr("")))
  {
    if !target.Present() then false
    else
      var current := ClassTokens(classAttr);
      if present.None? && absent.None? then false
      else (present.None? || present.value in current) && (absent.None? || absent.value !in current)
  }

  /** The non-regex kinds of `url_change`: contains, exact, starts_with, ends_with; other kinds use `regexVerdict`. */
  function UrlHolds(current: string, m: UrlMatch, regexVerdict: bool): (passed: bool)
    ensures Lower(m.kind) == "exact" ==> (passed <==> current == m.part)
    ensures Lower(m.kind) == "starts_with" ==> (passed <==> StartsWith(current, m.part))
    ensures Lower(m.kind) == "ends_with" ==> (passed <==> EndsWith(current, m.part))
    ensures Lower(m.kind) == "contains" ==> (passed <==> Contains(current, m.part))
  {
    var k := Lower(m.kind);
    if k == "contains" then Contains(current, m.part)
    else if k == "exact" then m.part == current
    else if k == "starts_with" then StartsWith(current, m.part)
    else if k == "ends_with" then EndsWith(current, m.part)
    else if k in {"regex_match_fragment", "regex_match_path", "regex_match_full"} then regexVerdict
    else false
  }

  /** Every non-regex URL match accepts the URL itself. */
  lemma UrlMatchesItself(url: string, kind: string, regexVerdict: bool)
    requires Lower(kind) in {"contains", "exact", "starts_with", "ends_with"}
    ensures UrlHolds(url, UrlMatch(kind, url), regexVerdict)
  {
    ContainsSelf(url);
    assert url[..|url|] == url;
    assert url[|url| - |url|..] == url;
  }

  /**
   * An outcome as configured: its type, the target's selector ("" when it is
   * missing or empty, so that nothing is looked up) and the target's selector
   * type (`None` when `element_selector_type` is not given).
   */
  datatype OutcomeConfig = OutcomeConfig(kind: Outcome, selector: string, selectorType: Option<string>)

  /**
   * Looking the target up raises: the lookup config then carries
   * `"selector_type": None`, and `_find_element_by_config` lower-cases it
   * outside its `try`.
   */
  predicate LookupRaises(o: OutcomeConfig) {
    o.selector != [] && o.selectorType.None?
  }

  /** The target the outcome sees: nothing is looked up without a selector. */
  function Target(o: OutcomeConfig, page: Page): (target: Found)
    ensures o.selector == [] ==> target == Missing
    ensures o.selector != [] ==> target == page.target
  {
    if o.selector == [] then Missing else page.target
  }

  /**
   * `_verify_single_outcome` over the page observed at that moment. A lookup
   * that raises fails every outcome type. `element_exists` with an
   * `expected_visibility` re-enters `_verify_single_outcome` with a config
   * whose `outcome_type` is still `element_exists` (the outcome's own keys
   * come last in the merge), so once the target is found it recurses until
   * Python's recursion limit raises: such an outcome never passes.
   */
  function OutcomeHolds(o: OutcomeConfig, page: Page): (passed: bool)
    ensures LookupRaises(o) ==> !passed
    ensures !LookupRaises(o) && o.kind.ElementExists? ==> (passed <==> Target(o, page).Present() && o.kind.visibility.None?)
    ensures !LookupRaises(o) && o.kind.ElementDoesNotExist? ==> (passed <==> !Target(o, page).Present())
    ensures !LookupRaises(o) && o.kind.VisibilityChange? ==> (passed <==> VisibilityHolds(o.kind.expectedVisibility, Target(o, page)))
    ensures !LookupRaises(o) && o.kind.ClassChange? ==>
              (passed <==> ClassChangeHolds(Target(o, page), page.classAttr, o.kind.present, o.kind.absent))
    ensures !LookupRaises(o) && o.kind.NewElementCount? ==>
              (passed <==> Target(o, page).Present() &&
                           CompareCounts(page.childCount, o.kind.expected, o.kind.comparison, o.kind.min, o.kind.max))
    ensures !LookupRaises(o) && o.kind.UrlChange? ==> (passed <==> UrlHolds(page.url, o.kind.url, o.kind.regexVerdict))
    ensures o.kind.UnknownOutcome? ==> !passed
  {
    if LookupRaises(o) then false
    else
      var target := Target(o, page);
      match o.kind
      case AttributeChange(v) => v
      case ClassChange(p, a) => ClassChangeHolds(target, page.classAttr, p, a)
      case VisibilityChange(ev) => VisibilityHolds(ev, target)
      case TextChange(v) => v
      case CssChange(v) => v
      case ElementExists(vis) => target.Present() && vis.None?
      case ElementDoesNotExist => !target.Present()
      case Script(s, r) => s != [] && r.GetOr(false)
      case NewElementCount(e, c, mn, mx) =>
        target.Present() && CompareCounts(page.childCount, e, c, mn, mx)
      case UrlChange(m, rv) => UrlHolds(page.url, m, rv)
      case AnimationEnds(ended) => target.Present() && ended
      case UnknownOutcome => false
  }

  /** `element_exists` and `element_does_not_exist` are complementary when no visibility is asked for and the lookup works. */
  lemma ExistsComplementsDoesNotExist(selector: string, selectorType: Option<string>, page: Page)
    requires !LookupRaises(OutcomeConfig(ElementDoesNotExist, selector, selectorType))
    ensures OutcomeHolds(OutcomeConfig(ElementExists(None), selector, selectorType), page) ==
            !OutcomeHolds(OutcomeConfig(ElementDoesNotExist, selector, selectorType), page)
  {
  }

  /** As written, `element_exists` with an `expected_visibility` fails on every page, whatever visibility it asks for. */
  lemma ExistsWithVisibilityNeverHolds(v: string, selector: string, selectorType: Option<string>, page: Page)
    ensures !OutcomeHolds(OutcomeConfig(ElementExists(Some(v)), selector, selectorType), page)
  {
  }

  /**
   * The evidently intended `element_exists`: the target is in the document
   * and, when a visibility is asked for, `visibility_change` decides it. So
   * "visible" wants a displayed target and "hidden" a present one that is not
   * displayed.
   */
  function ExistsIntended(visibility: Option<string>, target: Found): (passed: bool)
    ensures visibility.None? ==> (passed <==> target.Present())
    ensures visibility.Some? && Lower(visibility.value) == "visible" ==> (passed <==> target == Shown)
    ensures visibility.Some? && Lower(visibility.value) == "hidden" ==> (passed <==> target == Hidden)
    ensures visibility.Some? && Lower(visibility.value) !in {"visible", "hidden"} ==> !passed
  {
    target.Present() && (visibility.None? || VisibilityHolds(visibility.value, target))
  }

  /** Without a visibility condition the source as written and the intended check agree. */
  lemma ExistsIntendedAgrees(selector: string, selectorType: Option<string>, page: Page)
    requires !LookupRaises(OutcomeConfig(ElementExists(None), selector, selectorType))
    ensures OutcomeHolds(OutcomeConfig(ElementExists(None), selector, selectorType), page) ==
            ExistsIntended(None, Target(OutcomeConfig(ElementExists(None), selector, selectorType), page))
  {
  }
}
