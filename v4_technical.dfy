/**
 * The scoring rules of the v4 technical-quality checks: HTML structure and the
 * heading scan, Axe-core violations, CSS quality, the viewport meta tag and
 * horizontal scrolling, rendered colour contrast, Lighthouse and JavaScript
 * health. What the browser reports is an input; each check becomes the
 * findings it hands to `_add_finding`.
 */
module TechnicalV4 {
  import opened Text
  import opened Wrappers
  import opened Lexemes
  import opened Findings
  import ColourV4

  // ---------------------------------------------------------------------------
  // Configuration
  // ---------------------------------------------------------------------------

  const AxeCategory := "Accessibility (Axe-core)"
  const PerformanceCategory := "Performance (Lighthouse)"
  const LhAccessibilityCategory := "Accessibility (Lighthouse)"
  const BestPracticesCategory := "Best Practices (Lighthouse)"
  const SeoCategory := "SEO (Lighthouse)"
  const ContrastCategory := "Rendered Color & Contrast"
  const HtmlCategory := "HTML Structure & Semantics"
  const CssCategory := "CSS Quality"
  const ResponsivenessCategory := "Responsiveness (Viewport & Scroll)"
  const JsCategory := "JavaScript Health"

  /** `TECHNICAL_QUALITY_MAX_POINTS_CONFIG`: the base maximum of each technical category. */
  const MaxPointsConfig: map<string, real> := map[
    AxeCategory := 20.0, PerformanceCategory := 20.0, LhAccessibilityCategory := 10.0,
    BestPracticesCategory := 5.0, SeoCategory := 5.0, ContrastCategory := 15.0,
    HtmlCategory := 10.0, CssCategory := 5.0, ResponsivenessCategory := 10.0, JsCategory := 5.0]

  /** `PER_VIEWPORT_SCALABLE_CATEGORIES`: the categories scored once per viewport. */
  const PerViewportScalable: set<string> := {
    AxeCategory, ContrastCategory, ResponsivenessCategory, PerformanceCategory,
    LhAccessibilityCategory, BestPracticesCategory, SeoCategory}

  function Points(pass: bool, points: real): real { if pass then points else 0.0 }

  function PassOr(pass: bool, otherwise: Status): Status { if pass then Pass else otherwise }

  // ---------------------------------------------------------------------------
  // HTML structure and semantics
  // ---------------------------------------------------------------------------

  /**
   * The heading rule: there are visible headings, the first is h1 whenever any
   * h1 exists, and no heading is more than one level deeper than the one
   * before it. `levels` are the visible headings in reading order.
   */
  predicate HeadingOrderOk(levels: seq<int>) {
    |levels| > 0 && !(levels[0] != 1 && 1 in levels) &&
    forall i :: 1 <= i < |levels| ==> levels[i] <= levels[i - 1] + 1
  }

  /** The heading-order loop with `last_level`, `order_ok_temp` and its early `break`. */
  method ScanHeadingOrder(levels: seq<int>) returns (ok: bool)
    ensures ok == HeadingOrderOk(levels)
  {
    if |levels| == 0 {
      return false;
    }
    var lastLevel := 0;
    ok := true;
    var i := 0;
    while i < |levels|
      invariant 0 <= i <= |levels|
      invariant i > 0 ==> lastLevel == levels[i - 1]
      invariant ok <==> (i == 0 || !(levels[0] != 1 && 1 in levels)) &&
                        forall k :: 1 <= k < i ==> levels[k] <= levels[k - 1] + 1
    {
      var current := levels[i];
      if i == 0 && current != 1 && 1 in levels {
        ok := false;
      }
      if i > 0 && current > lastLevel + 1 {
        ok := false;
        break;
      }
      lastLevel := current;
      i := i + 1;
    }
  }

  /** In a well-ordered outline that opens with h1, the k-th heading is at most level k + 1. */
  lemma HeadingDepthBound(levels: seq<int>)
    requires HeadingOrderOk(levels) && levels[0] == 1
    ensures forall k :: 0 <= k < |levels| ==> levels[k] <= k + 1
  {
    forall k | 0 <= k < |levels| ensures levels[k] <= k + 1 {
      HeadingDepthAt(levels, k);
    }
  }

  lemma {:induction false} HeadingDepthAt(levels: seq<int>, k: nat)
    requires HeadingOrderOk(levels) && levels[0] == 1 && k < |levels|
    ensures levels[k] <= k + 1
  {
    if k > 0 {
      HeadingDepthAt(levels, k - 1);
    }
  }

  /** When a page has an h1, a passing outline starts with it. */
  lemma HeadingOrderStartsAtH1(levels: seq<int>)
    requires HeadingOrderOk(levels) && 1 in levels
    ensures levels[0] == 1
  {
  }

  /** What the HTML-structure check reads from the page; `None` where the browser raised. */
  datatype HtmlPage = HtmlPage(
    lang: Option<string>,              // the `lang` attribute of <html>
    title: string,                     // the page title ("N/A" when it could not be read)
    main: Option<bool>,                // some <main> is displayed
    nav: Option<bool>,
    footer: Option<bool>,
    headings: Option<seq<int>>,        // levels of the displayed headings, top to bottom, left to right
    imageAlts: Option<seq<bool>>,      // for each displayed image: it has an `alt` attribute
    inputsLabelled: Option<seq<bool>>) // for each displayed form field: it has some label

  /** A sub-check worth `points`: all of them when it passes, none otherwise. */
  function HtmlCheck(name: string, ok: bool, points: real, otherwise: Status): (f: Finding)
    requires points >= 0.0
    ensures f.category == HtmlCategory && f.max == points && 0.0 <= f.earned <= points
    ensures ok ==> f.earned == points
    ensures !ok ==> f.earned == 0.0
  {
    Finding(HtmlCategory, name, Points(ok, points), points, PassOr(ok, otherwise))
  }

  function TagFinding(name: string, visible: Option<bool>, otherwise: Status): (f: Finding)
    ensures f.category == HtmlCategory && f.max == 1.0 && 0.0 <= f.earned <= 1.0
    ensures visible == Some(true) ==> f.earned == 1.0
    ensures visible != Some(true) ==> f.earned == 0.0
  {
    match visible
    case Some(v) => HtmlCheck(name, v, 1.0, otherwise)
    case None => Finding(HtmlCategory, name, 0.0, 1.0, Fail)
  }

  function AllTrue(bs: seq<bool>): bool { forall i :: 0 <= i < |bs| ==> bs[i] }

  /** An all-true list (including the empty one) passes; an empty one is only informational. */
  function ListFinding(name: string, bs: Option<seq<bool>>, points: real): (f: Finding)
    requires points >= 0.0
    ensures f.category == HtmlCategory && f.max == points && 0.0 <= f.earned <= points
    ensures bs.Some? && AllTrue(bs.value) ==> f.earned == points
    ensures !(bs.Some? && AllTrue(bs.value)) ==> f.earned == 0.0
  {
    match bs
    case Some(xs) =>
      Finding(HtmlCategory, name, Points(AllTrue(xs), points), points, if xs == [] then Info else PassOr(AllTrue(xs), Fail))
    case None => Finding(HtmlCategory, name, 0.0, points, Fail)
  }

  /** The page-level verdicts: a non-blank `lang`, a real title, exactly one h1, headings in order. */
  function Verdicts(p: HtmlPage): (bool, bool, bool, bool) {
    (p.lang.Some? && Strip(p.lang.value) != [],
     p.title != [] && p.title != "N/A" && Strip(p.title) != [],
     p.headings.Some? && multiset(p.headings.value)[1] == 1,
     p.headings.Some? && HeadingOrderOk(p.headings.value))
  }

  /** The nine findings of `check_html_structure_semantics`, in order: eight worth one point, form labels worth two. */
  function HtmlStructureFindings(p: HtmlPage): (fs: seq<Finding>)
    ensures |fs| == 9 && forall i :: 0 <= i < |fs| ==> fs[i].category == HtmlCategory
    ensures WithinMax(fs)
    ensures forall i :: 0 <= i < |fs| ==> fs[i].max == (if i == 8 then 2.0 else 1.0)
    ensures forall i :: 0 <= i < |fs| ==> fs[i].earned == 0.0 || fs[i].earned == fs[i].max
  {
    var v := Verdicts(p);
    [ HtmlCheck("HTML Lang", v.0, 1.0, Fail),
      HtmlCheck("Page Title", v.1, 1.0, Warn),
      TagFinding("Main Tag", p.main, Fail),
      TagFinding("Nav Tag", p.nav, Warn),
      TagFinding("Footer Tag", p.footer, Warn),
      HtmlCheck("H1 Count", v.2, 1.0, Fail),
      HtmlCheck("Heading Order Logic", v.3, 1.0, Fail),
      ListFinding("Image Alts", p.imageAlts, 1.0),
      ListFinding("Form Labels", p.inputsLabelled, 2.0) ]
  }

  /**
   * The page-level sub-checks earn their points exactly when: `lang` is set
   * and not blank; the title is not empty, "N/A" or blank; there is exactly
   * one h1; the heading levels are in order.
   */
  lemma HtmlPageVerdicts(p: HtmlPage)
    ensures var fs := HtmlStructureFindings(p);
            (fs[0].earned == fs[0].max <==> p.lang.Some? && Strip(p.lang.value) != []) &&
            (fs[1].earned == fs[1].max <==> p.title != [] && p.title != "N/A" && Strip(p.title) != []) &&
            (fs[5].earned == fs[5].max <==> p.headings.Some? && multiset(p.headings.value)[1] == 1) &&
            (fs[6].earned == fs[6].max <==> p.headings.Some? && HeadingOrderOk(p.headings.value))
  {
  }

  /**
   * The element sub-checks earn their points exactly when: main, nav and
   * footer are each found and displayed; every displayed image has an `alt`;
   * every displayed form field has a label.
   */
  lemma HtmlElementVerdicts(p: HtmlPage)
    ensures var fs := HtmlStructureFindings(p);
            (fs[2].earned == fs[2].max <==> p.main == Some(true)) &&
            (fs[3].earned == fs[3].max <==> p.nav == Some(true)) &&
            (fs[4].earned == fs[4].max <==> p.footer == Some(true)) &&
            (fs[7].earned == fs[7].max <==> p.imageAlts.Some? && AllTrue(p.imageAlts.value)) &&
            (fs[8].earned == fs[8].max <==> p.inputsLabelled.Some? && AllTrue(p.inputsLabelled.value))
  {
  }

  /** The sub-checks' points add up to the category's configured maximum, and the earned points stay within it. */
  lemma HtmlStructureTotals(p: HtmlPage)
    ensures Sum(Maxima(HtmlStructureFindings(p))) == MaxPointsConfig[HtmlCategory]
    ensures 0.0 <= Sum(Earned(HtmlStructureFindings(p))) <= MaxPointsConfig[HtmlCategory]
  {
    var fs := HtmlStructureFindings(p);
    assert Maxima(fs) == [1.0, 1.0, 1.0, 1.0, 1.0, 1.0, 1.0, 1.0, 2.0];
    assert Sum([1.0, 1.0, 1.0, 1.0, 1.0, 1.0, 1.0, 1.0, 2.0]) == 10.0 by {
      SumOfLiteral();
    }
    WithinMaxTotals(fs);
  }

  lemma SumOfLiteral()
    ensures Sum([1.0, 1.0, 1.0, 1.0, 1.0, 1.0, 1.0, 1.0, 2.0]) == 10.0
  {
    var xs := [1.0, 1.0, 1.0, 1.0, 1.0, 1.0, 1.0, 1.0, 2.0];
    forall k | 0 <= k <= 8 ensures Sum(xs[..k]) == k as real {
      SumOfOnes(xs[..k]);
    }
    assert xs[..9][..8] == xs[..8];
    assert xs[..9] == xs;
  }

  // ---------------------------------------------------------------------------
  // Accessibility (Axe-core)
  // ---------------------------------------------------------------------------

  function CountImpact(impacts: seq<string>, impact: string): nat {
    multiset(impacts)[impact]
  }

  /** The penalty as the check computes it: 10 per critical, 5 per serious, 2 per moderate, 1 per minor violation. */
  function AxePenalty(impacts: seq<string>): nat {
    10 * CountImpact(impacts, "critical") + 5 * CountImpact(impacts, "serious") +
    2 * CountImpact(impacts, "moderate") + CountImpact(impacts, "minor")
  }

  /** The penalty a single violation carries; an unknown impact carries none. */
  function ImpactWeight(impact: string): nat {
    if impact == "critical" then 10
    else if impact == "serious" then 5
    else if impact == "moderate" then 2
    else if impact == "minor" then 1
    else 0
  }

  /** The penalty as a sum over the violations, one at a time. */
  function WeightSum(impacts: seq<string>): nat
    decreases |impacts|
  {
    if impacts == [] then 0 else WeightSum(impacts[..|impacts| - 1]) + ImpactWeight(impacts[|impacts| - 1])
  }

  /** The count-based penalty is the per-violation sum of weights. */
  lemma {:induction false} AxePenaltyIsWeightSum(impacts: seq<string>)
    ensures AxePenalty(impacts) == WeightSum(impacts)
    decreases |impacts|
  {
    if impacts != [] {
      var init, last := impacts[..|impacts| - 1], impacts[|impacts| - 1];
      assert impacts == init + [last];
      AxePenaltyIsWeightSum(init);
      assert multiset(impacts) == multiset(init) + multiset{last};
    }
  }

  /** The finding of one Axe run: the violations' impacts, or `None` when running Axe failed. */
  function AxeFinding(run: Option<seq<string>>): (f: Finding)
    ensures f.category == AxeCategory && f.max == MaxPointsConfig[AxeCategory]
    ensures 0.0 <= f.earned <= f.max
    ensures run.Some? ==> f.earned == (if AxePenalty(run.value) >= 20 then 0.0 else (20 - AxePenalty(run.value)) as real)
  {
    match run
    case None => Finding(AxeCategory, "Axe Execution", 0.0, 20.0, Fail)
    case Some(impacts) =>
      if impacts == [] then Finding(AxeCategory, "Axe Violations", 20.0, 20.0, Pass)
      else
        var penalty := AxePenalty(impacts);
        var earned := if penalty >= 20 then 0 else 20 - penalty;
        var status :=
          if earned as real >= 20.0 * 0.9 then Pass
          else if CountImpact(impacts, "critical") > 0 || CountImpact(impacts, "serious") > 0 then Fail
          else Warn;
        Finding(AxeCategory, "Axe Violations", earned as real, 20.0, status)
  }

  /** More violations never earn more points. */
  lemma AxeMonotone(impacts: seq<string>, more: seq<string>)
    ensures AxeFinding(Some(impacts + more)).earned <= AxeFinding(Some(impacts)).earned
  {
    assert multiset(impacts + more) == multiset(impacts) + multiset(more);
  }

  /** Any critical violation costs at least half the points and makes the run fail. */
  lemma AxeCriticalFails(impacts: seq<string>)
    requires "critical" in impacts
    ensures AxeFinding(Some(impacts)).earned <= 10.0
    ensures AxeFinding(Some(impacts)).status == Fail
  {
    assert CountImpact(impacts, "critical") >= 1;
  }

  // ---------------------------------------------------------------------------
  // CSS quality
  // ---------------------------------------------------------------------------

  /** What the CSS-quality check reads; `None` where the browser raised. */
  datatype CssPage = CssPage(
    customProperties: Option<nat>,      // number of `--` properties on the root element
    layout: Option<(string, string)>,   // `display` of <body> and of the first <main> ("" when none is shown)
    inlineStyles: Option<nat>,          // displayed elements with a non-blank `style` attribute
    styleSheets: Option<string>)        // the text of every <style> element

  /** A count scored in three tiers: full points up to `passUpTo`, half up to `halfUpTo`, none beyond. */
  function Tiered(category: string, name: string, n: nat, passUpTo: nat, halfUpTo: nat, points: real): (f: Finding)
    requires passUpTo <= halfUpTo && points >= 0.0
    ensures 0.0 <= f.earned <= f.max == points
    ensures f.category == category && f.check == name
    ensures f.status == Pass <==> n <= passUpTo
    ensures f.status == Warn <==> passUpTo < n <= halfUpTo
    ensures f.status == Fail <==> halfUpTo < n
    ensures f.status == Pass ==> f.earned == points
    ensures f.status == Warn ==> f.earned == points * 0.5
    ensures f.status == Fail ==> f.earned == 0.0
  {
    if n <= passUpTo then Finding(category, name, points, points, Pass)
    else if n <= halfUpTo then Finding(category, name, points * 0.5, points, Warn)
    else Finding(category, name, 0.0, points, Fail)
  }

  /** A larger count never scores more. */
  lemma TieredMonotone(category: string, name: string, n: nat, m: nat, passUpTo: nat, halfUpTo: nat, points: real)
    requires passUpTo <= halfUpTo && points >= 0.0 && n <= m
    ensures Tiered(category, name, m, passUpTo, halfUpTo, points).earned <= Tiered(category, name, n, passUpTo, halfUpTo, points).earned
  {
  }

  function IsModernDisplay(d: string): bool { d == "flex" || d == "grid" }

  function ImportantCount(styleSheets: string): nat {
    CountOf(Lower(styleSheets), "!important")
  }

  /** The four findings of `check_css_quality`. */
  function CssQualityFindings(p: CssPage): (fs: seq<Finding>)
    ensures |fs| == 4 && forall i :: 0 <= i < 4 ==> fs[i].category == CssCategory
    ensures WithinMax(fs)
    ensures Maxima(fs) == [2.0, 1.0, 1.0, 1.0]
    ensures p.customProperties.Some? ==> (fs[0].earned == 2.0 <==> p.customProperties.value > 0)
    ensures p.customProperties.Some? ==> (fs[0].status == Pass <==> p.customProperties.value > 0)
    ensures p.layout.Some? ==>
              (fs[1].earned == 1.0 <==> p.layout.value.0 in {"flex", "grid"} || p.layout.value.1 in {"flex", "grid"})
    ensures p.inlineStyles.Some? ==> fs[2] == Tiered(CssCategory, "Inline Styles", p.inlineStyles.value, 3, 10, 1.0)
    ensures p.styleSheets.Some? ==>
              fs[3] == Tiered(CssCategory, "!important Usage", CountOf(Lower(p.styleSheets.value), "!important"), 0, 2, 1.0)
    ensures p.customProperties.None? ==> fs[0].earned == 0.0 && fs[0].status == Fail
    ensures p.layout.None? ==> fs[1].earned == 0.0 && fs[1].status == Fail
    ensures p.inlineStyles.None? ==> fs[2].earned == 0.0 && fs[2].status == Fail
    ensures p.styleSheets.None? ==> fs[3].earned == 0.0 && fs[3].status == Fail
  {
    [ match p.customProperties
      case Some(n) => Finding(CssCategory, "CSS Variables", Points(n > 0, 2.0), 2.0, PassOr(n > 0, Warn))
      case None => Finding(CssCategory, "CSS Variables", 0.0, 2.0, Fail),
      match p.layout
      case Some((body, main)) =>
        var ok := IsModernDisplay(body) || IsModernDisplay(main);
        Finding(CssCategory, "Modern Layout Body/Main", Points(ok, 1.0), 1.0, PassOr(ok, Info))
      case None => Finding(CssCategory, "Modern Layout Body/Main", 0.0, 1.0, Fail),
      match p.inlineStyles
      case Some(n) => Tiered(CssCategory, "Inline Styles", n, 3, 10, 1.0)
      case None => Finding(CssCategory, "Inline Styles", 0.0, 1.0, Fail),
      match p.styleSheets
      case Some(text) => Tiered(CssCategory, "!important Usage", ImportantCount(text), 0, 2, 1.0)
      case None => Finding(CssCategory, "!important Usage", 0.0, 1.0, Fail) ]
  }

  /** The CSS sub-checks add up to the category maximum, and the earned points stay within it. */
  lemma CssQualityTotals(p: CssPage)
    ensures Sum(Maxima(CssQualityFindings(p))) == MaxPointsConfig[CssCategory]
    ensures 0.0 <= Sum(Earned(CssQualityFindings(p))) <= MaxPointsConfig[CssCategory]
  {
    var xs := [2.0, 1.0, 1.0, 1.0];
    assert xs[..1][..0] == [];
    assert xs[..2][..1] == xs[..1];
    assert xs[..3][..2] == xs[..2];
    assert xs[..4][..3] == xs[..3];
    assert xs[..4] == xs;
    assert Sum(xs[..1]) == 2.0;
    assert Sum(xs[..2]) == 3.0;
    assert Sum(xs[..3]) == 4.0;
    WithinMaxTotals(CssQualityFindings(p));
  }

  /** Style sheets without `!important` (in any case) earn the full point. */
  lemma NoImportantFullPoint(text: string)
    requires !Contains(Lower(text), "!important")
    ensures CssQualityFindings(CssPage(None, None, None, Some(text)))[3].earned == 1.0
  {
    CountOfZero(Lower(text), "!important");
  }

  // ---------------------------------------------------------------------------
  // Responsiveness: viewport meta tag and horizontal scrolling
  // ---------------------------------------------------------------------------

  const ViewportMetaPoints := 4.0
  const ScrollPoints := 6.0

  /** The viewport rule on the lower-cased `content`: device width and initial scale 1, and no zoom lock. */
  predicate GoodViewport(content: string) {
    Contains(content, "width=device-width") &&
    (Contains(content, "initial-scale=1") || Contains(content, "initial-scale=1.0")) &&
    !Contains(content, "user-scalable=no") && !Contains(content, "maximum-scale=1")
  }

  /**
   * `meta[name=viewport]` as read: missing (or reading it raised a WebDriver
   * error), or found with its `content` attribute, `None` when the tag has none.
   */
  datatype MetaTag = NoTag | Tag(content: Option<string>)

  /**
   * The viewport meta finding. A tag without `content` makes `.lower()` raise
   * an `AttributeError` that neither handler catches, which ends the whole
   * prompt's analysis: the result is `None`.
   */
  function ViewportMetaFinding(tag: MetaTag): (r: Option<Finding>)
    ensures r.None? <==> tag == Tag(None)
    ensures r.Some? ==> r.value.category == ResponsivenessCategory && r.value.max == ViewportMetaPoints
    ensures r.Some? ==> (r.value.earned == ViewportMetaPoints <==> tag.Tag? && GoodViewport(Lower(tag.content.value)))
    ensures r.Some? ==> r.value.earned == ViewportMetaPoints || r.value.earned == 0.0
  {
    match tag
    case Tag(Some(c)) =>
      if GoodViewport(Lower(c)) then Some(Finding(ResponsivenessCategory, "Viewport Meta Tag", 4.0, 4.0, Pass))
      else Some(Finding(ResponsivenessCategory, "Viewport Meta Tag", 0.0, 4.0, Fail))
    case Tag(None) => None
    case NoTag => Some(Finding(ResponsivenessCategory, "Viewport Meta Tag", 0.0, 4.0, Fail))
  }

  /** The "initial-scale=1.0" alternative adds nothing: it always contains "initial-scale=1". */
  lemma InitialScaleAlternativeRedundant(content: string)
    ensures GoodViewport(content) <==>
            Contains(content, "width=device-width") && Contains(content, "initial-scale=1") &&
            !Contains(content, "user-scalable=no") && !Contains(content, "maximum-scale=1")
  {
    if Contains(content, "initial-scale=1.0") {
      assert "initial-scale=1.0" == "initial-scale=1" + ".0";
      ContainsPrefixOf(content, "initial-scale=1", ".0");
    }
  }

  /** Any `maximum-scale` starting with the digit 1, such as "maximum-scale=10", is refused. */
  lemma MaximumScaleTenRefused(content: string)
    requires Contains(content, "maximum-scale=10")
    ensures !GoodViewport(content)
  {
    assert "maximum-scale=10" == "maximum-scale=1" + "0";
    ContainsPrefixOf(content, "maximum-scale=1", "0");
  }

  /** The horizontal-scroll probe: the page loaded and did or did not scroll sideways, did not load in time, or failed. */
  datatype Scroll = Scrolls(horizontal: bool) | NotLoaded | ScrollError

  function ScrollFinding(s: Scroll): (f: Finding)
    ensures f.category == ResponsivenessCategory && f.max == ScrollPoints
    ensures f.earned == ScrollPoints <==> s == Scrolls(false)
    ensures f.earned == ScrollPoints || f.earned == 0.0
  {
    match s
    case Scrolls(h) =>
      if h then Finding(ResponsivenessCategory, "Horizontal Scrollbar", 0.0, 6.0, Fail)
      else Finding(ResponsivenessCategory, "Horizontal Scrollbar", 6.0, 6.0, Pass)
    case NotLoaded => Finding(ResponsivenessCategory, "Horizontal Scrollbar", 0.0, 6.0, Warn)
    case ScrollError => Finding(ResponsivenessCategory, "Horizontal Scrollbar", 0.0, 6.0, Fail)
  }

  /** Once the meta tag has been scored for the prompt, later viewports record it at 0 of 0. */
  const MetaAlreadyScored := Finding(ResponsivenessCategory, "Viewport Meta Tag", 0.0, 0.0, Info)

  /**
   * The findings of one `check_responsiveness_viewport_scroll` call, or `None`
   * when reading the meta tag ended the analysis.
   */
  function ResponsivenessFindings(metaScored: bool, tag: MetaTag, s: Scroll): (r: Option<seq<Finding>>)
    ensures r.None? <==> !metaScored && tag == Tag(None)
    ensures r.Some? ==> |r.value| == 2 && WithinMax(r.value)
    ensures r.Some? ==> Sum(Maxima(r.value)) == (if metaScored then ScrollPoints else ViewportMetaPoints + ScrollPoints)
  {
    var meta := if metaScored then Some(MetaAlreadyScored) else ViewportMetaFinding(tag);
    if meta.None? then None
    else
      var fs := [meta.value, ScrollFinding(s)];
      var ms := Maxima(fs);
      assert ms[..1] == [ms[0]] && ms[..1][..0] == [];
      assert Sum(ms[..1]) == ms[0];
      assert Sum(ms) == ms[0] + ms[1];
      Some(fs)
  }

  // ---------------------------------------------------------------------------
  // Rendered colour contrast
  // ---------------------------------------------------------------------------

  const ContrastPoints := 15.0

  /** A computed-style value that Python reads with `float`: missing (default 1.0), a number, or a text `float` rejects. */
  datatype Reading = Absent | Number(v: real) | Unreadable

  /** The computed style of a text element: colour, font size, font weight and opacity. */
  datatype TextStyle = TextStyle(color: string, fontSize: string, fontWeight: Option<string>, opacity: Reading)

  /**
   * A displayed candidate text element: its text, its placeholder (read only
   * for input and textarea), its computed style (`None` when not obtainable),
   * the document background and its ancestor chain for the background walk.
   */
  datatype Candidate = Candidate(text: string, placeholder: string, isField: bool, style: Option<TextStyle>,
                                 doc: string, chain: seq<ColourV4.Node>)

  /** What happened to one candidate: skipped, counted without a verdict, failing AA, passing AA only, or passing AAA. */
  datatype Verdict = Skipped | CountedOnly | FailsAA | OnlyAA | PassesAAA

  /** The text whose contrast is judged: the stripped text, or the stripped placeholder of an empty field. */
  function EffectiveText(c: Candidate): string {
    var text := Strip(c.text);
    var placeholder := if c.isField then Strip(c.placeholder) else [];
    if text == [] && placeholder != [] then placeholder else text
  }

  /** Python's `str(weight).lower()` in ("bold", "bolder"), or a weight of all digits that is at least 700. */
  predicate IsBold(weight: Option<string>) {
    var w := weight.GetOr("None");
    Lower(w) == "bold" || Lower(w) == "bolder" || (w != [] && AllDigits(w) && DigitsValue(w) >= 700)
  }

  /** WCAG 2.1 large-scale text: at least 24px, or at least 18.66px and bold. */
  predicate IsLarge(sizePx: real, bold: bool) {
    sizePx >= 24.0 || (sizePx >= 18.66 && bold)
  }

  /**
   * What the loop body works out about a candidate before judging it: whether
   * it has text and the style values it needs, the parsed text colour, the
   * opacity reading, the effective background, the font size and boldness.
   */
  datatype Observed = Observed(readable: bool, fg: ColourV4.Parsed, opacity: Reading, bg: ColourV4.Background,
                               size: Option<real>, bold: bool)

  function Observe(c: Candidate): Observed {
    if EffectiveText(c) == [] || c.style.None? || c.style.value.color == [] || c.style.value.fontSize == [] then
      Observed(false, ColourV4.NoColour, Absent, ColourV4.BgError, None, false)
    else
      var st := c.style.value;
      Observed(true, ColourV4.ParseColor(st.color), st.opacity, ColourV4.EffectiveBackground(c.doc, c.chain),
               FloatLexeme(KeepNumeric(st.fontSize)), IsBold(st.fontWeight))
  }

  /**
   * One pass of the contrast loop. `meetsAA` and `meetsAAA` stand for the
   * contrast library's verdicts on the text colour, the effective background
   * and the large-text flag. Every exception inside the loop body skips the
   * element (a colour that does not parse, an opacity `float` rejects, a
   * background walk that raises); one raised after the element was counted
   * (reading the font size) leaves it counted without a verdict.
   */
  function Judge(o: Observed, meetsAA: (ColourV4.Rgb, ColourV4.Rgb, bool) -> bool,
                 meetsAAA: (ColourV4.Rgb, ColourV4.Rgb, bool) -> bool): Verdict
  {
    if !o.readable || !o.fg.Colour? then Skipped
    else
      var opacity := match o.opacity case Absent => Some(1.0) case Number(v) => Some(v) case Unreadable => None;
      if opacity.None? || o.fg.c.a * opacity.value < 0.1 then Skipped
      else if o.bg.BgError? then Skipped
      else if o.size.None? then CountedOnly
      else
        var large := IsLarge(o.size.value, o.bold);
        if !meetsAA(o.fg.c.Opaque(), o.bg.rgb, large) then FailsAA
        else if !meetsAAA(o.fg.c.Opaque(), o.bg.rgb, large) then OnlyAA
        else PassesAAA
  }

  /** The loop's counters: candidates checked, AA failures, and AA-only passes. */
  datatype Tally = Tally(checked: nat, failsAA: nat, onlyAA: nat)

  function Count(v: Verdict, t: Tally): Tally {
    match v
    case Skipped => t
    case CountedOnly => t.(checked := t.checked + 1)
    case FailsAA => t.(checked := t.checked + 1, failsAA := t.failsAA + 1)
    case OnlyAA => t.(checked := t.checked + 1, onlyAA := t.onlyAA + 1)
    case PassesAAA => t.(checked := t.checked + 1)
  }

  /** What the loop body works out for each candidate, in order. */
  function ObserveAll(cs: seq<Candidate>): (os: seq<Observed>)
    ensures |os| == |cs|
    ensures forall i :: 0 <= i < |cs| ==> os[i] == Observe(cs[i])
  {
    if cs == [] then [] else [Observe(cs[0])] + ObserveAll(cs[1..])
  }

  /** The counters after judging `os` in order. */
  function TallyOf(os: seq<Observed>, meetsAA: (ColourV4.Rgb, ColourV4.Rgb, bool) -> bool,
                   meetsAAA: (ColourV4.Rgb, ColourV4.Rgb, bool) -> bool): (t: Tally)
    ensures t.failsAA + t.onlyAA <= t.checked <= |os|
    decreases |os|
  {
    if os == [] then Tally(0, 0, 0)
    else Count(Judge(os[|os| - 1], meetsAA, meetsAAA), TallyOf(os[..|os| - 1], meetsAA, meetsAAA))
  }

  /** The contrast loop over the displayed candidates, with its three counters. */
  method ScanContrast(cs: seq<Candidate>, meetsAA: (ColourV4.Rgb, ColourV4.Rgb, bool) -> bool,
                      meetsAAA: (ColourV4.Rgb, ColourV4.Rgb, bool) -> bool)
    returns (checked: nat, failsAA: nat, onlyAA: nat)
    ensures Tally(checked, failsAA, onlyAA) == TallyOf(ObserveAll(cs), meetsAA, meetsAAA)
  {
    var os := ObserveAll(cs);
    checked, failsAA, onlyAA := 0, 0, 0;
    for i := 0 to |os|
      invariant Tally(checked, failsAA, onlyAA) == TallyOf(os[..i], meetsAA, meetsAAA)
    {
      TallyOfSnoc(os, i, meetsAA, meetsAAA);
      var v := Judge(os[i], meetsAA, meetsAAA);
      checked, failsAA, onlyAA := Tick(v, checked, failsAA, onlyAA);
    }
    assert os[..|os|] == os;
  }

  /** One candidate more: its verdict is counted on top of the earlier ones. */
  lemma TallyOfSnoc(os: seq<Observed>, i: nat, meetsAA: (ColourV4.Rgb, ColourV4.Rgb, bool) -> bool,
                    meetsAAA: (ColourV4.Rgb, ColourV4.Rgb, bool) -> bool)
    requires i < |os|
    ensures TallyOf(os[..i + 1], meetsAA, meetsAAA) == Count(Judge(os[i], meetsAA, meetsAAA), TallyOf(os[..i], meetsAA, meetsAAA))
  {
    assert os[..i + 1][..i] == os[..i];
  }

  /** The counter updates of one pass of the loop. */
  method Tick(v: Verdict, checked: nat, failsAA: nat, onlyAA: nat) returns (c: nat, f: nat, o: nat)
    ensures Tally(c, f, o) == Count(v, Tally(checked, failsAA, onlyAA))
  {
    c, f, o := checked, failsAA, onlyAA;
    match v {
      case Skipped =>
      case CountedOnly => c := c + 1;
      case FailsAA => c := c + 1; f := f + 1;
      case OnlyAA => c := c + 1; o := o + 1;
      case PassesAAA => c := c + 1;
    }
  }

  /**
   * The result of `check_rendered_color_contrast` from its counters: no
   * candidates is full marks, none checked is zero, each AA failure costs 2.5
   * points down to zero, and no failure is full marks.
   */
  function ContrastResult(candidates: nat, t: Tally): (f: Finding)
    ensures f.category == ContrastCategory && f.max == ContrastPoints
    ensures 0.0 <= f.earned <= f.max
    ensures f.earned == ContrastPoints <==> candidates == 0 || (t.checked > 0 && t.failsAA == 0)
    ensures candidates == 0 ==> f.status == Info
    ensures candidates > 0 && t.checked == 0 ==> f.earned == 0.0 && f.status == Fail
    ensures candidates > 0 && t.checked > 0 && t.failsAA > 0 ==>
              f.status == Fail && f.earned == (if t.failsAA >= 6 then 0.0 else ContrastPoints - 2.5 * t.failsAA as real)
    ensures candidates > 0 && t.checked > 0 && t.failsAA == 0 ==> f.status == Pass
  {
    if candidates == 0 then Finding(ContrastCategory, "Contrast Check", 15.0, 15.0, Info)
    else if t.checked == 0 then Finding(ContrastCategory, "Contrast Check Result", 0.0, 15.0, Fail)
    else if t.failsAA > 0 then
      var earned := 15.0 - t.failsAA as real * 2.5;
      Finding(ContrastCategory, "Contrast Check Result", if earned < 0.0 then 0.0 else earned, 15.0, Fail)
    else Finding(ContrastCategory, "Contrast Check Result", 15.0, 15.0, Pass)
  }

  /** More AA failures never earn more, and six or more earn nothing. */
  lemma ContrastMonotone(candidates: nat, checked: nat, n: nat, m: nat)
    requires candidates > 0 && checked > 0 && n <= m
    ensures ContrastResult(candidates, Tally(checked, m, 0)).earned <= ContrastResult(candidates, Tally(checked, n, 0)).earned
    ensures m >= 6 ==> ContrastResult(candidates, Tally(checked, m, 0)).earned == 0.0
  {
  }

  /**
   * `check_rendered_color_contrast` as a whole: the candidate list (`None` when
   * fetching it failed), of which the displayed ones are judged.
   */
  method ContrastFinding(candidates: Option<seq<(bool, Candidate)>>, meetsAA: (ColourV4.Rgb, ColourV4.Rgb, bool) -> bool,
                         meetsAAA: (ColourV4.Rgb, ColourV4.Rgb, bool) -> bool) returns (f: Finding)
    ensures f == ContrastSpec(candidates, meetsAA, meetsAAA)
  {
    if candidates.None? {
      return Finding(ContrastCategory, "Contrast Element Fetch", 0.0, 15.0, Fail);
    }
    var shown := Displayed(candidates.value);
    var checked, failsAA, onlyAA := ScanContrast(shown, meetsAA, meetsAAA);
    f := ContrastResult(|shown|, Tally(checked, failsAA, onlyAA));
  }

  /** The displayed candidates, in order. */
  function Displayed(cs: seq<(bool, Candidate)>): (shown: seq<Candidate>)
    ensures |shown| <= |cs|
    decreases |cs|
  {
    if cs == [] then []
    else (if cs[0].0 then [cs[0].1] else []) + Displayed(cs[1..])
  }

  function ContrastSpec(candidates: Option<seq<(bool, Candidate)>>, meetsAA: (ColourV4.Rgb, ColourV4.Rgb, bool) -> bool,
                        meetsAAA: (ColourV4.Rgb, ColourV4.Rgb, bool) -> bool): (f: Finding)
    ensures f.category == ContrastCategory && f.max == ContrastPoints && 0.0 <= f.earned <= f.max
  {
    match candidates
    case None => Finding(ContrastCategory, "Contrast Element Fetch", 0.0, 15.0, Fail)
    case Some(cs) =>
      var shown := Displayed(cs);
      ContrastResult(|shown|, TallyOf(ObserveAll(shown), meetsAA, meetsAAA))
  }

  /** If no displayed candidate is skipped and none fails AA, the page earns full contrast marks. */
  lemma {:induction false} ContrastAllReadable(os: seq<Observed>, meetsAA: (ColourV4.Rgb, ColourV4.Rgb, bool) -> bool,
                                               meetsAAA: (ColourV4.Rgb, ColourV4.Rgb, bool) -> bool)
    requires forall i :: 0 <= i < |os| ==> Judge(os[i], meetsAA, meetsAAA) in {OnlyAA, PassesAAA}
    ensures TallyOf(os, meetsAA, meetsAAA).checked == |os|
    ensures TallyOf(os, meetsAA, meetsAAA).failsAA == 0
    decreases |os|
  {
    if os != [] {
      ContrastAllReadable(os[..|os| - 1], meetsAA, meetsAAA);
    }
  }

  /** Weights "bold", "Bolder" and "700" are bold; "normal", "400" and a missing weight are not. */
  lemma BoldWeights()
    ensures IsBold(Some("bold")) && IsBold(Some("Bolder")) && IsBold(Some("700"))
    ensures !IsBold(Some("normal")) && !IsBold(Some("400")) && !IsBold(None)
  {
    assert Lower("bold") == "bold";
    assert Lower("Bolder") == "bolder";
    assert DigitsValue("700") == 700 by {
      assert "700"[..2] == "70";
      assert "70"[..1] == "7";
      assert "7"[..0] == "";
    }
    assert DigitsValue("400") == 400 by {
      assert "400"[..2] == "40";
      assert "40"[..1] == "4";
      assert "4"[..0] == "";
    }
    assert Lower("normal") == "normal";
    assert Lower("400") == "400";
    assert Lower("None") == "none";
  }

  // ---------------------------------------------------------------------------
  // Lighthouse
  // ---------------------------------------------------------------------------

  /**
   * How a Lighthouse run ended: the tool is not installed, the command failed,
   * the report holds a runtime error, it timed out, it raised, or it produced
   * scores in [0, 1] (`None` when a category has no score).
   */
  datatype LighthouseRun =
    | NotInstalled | CliFailed | RuntimeError | TimedOut | Crashed
    | Scores(performance: Option<real>, accessibility: Option<real>, bestPractices: Option<real>, seo: Option<real>)

  const LighthouseCategories := [PerformanceCategory, LhAccessibilityCategory, BestPracticesCategory, SeoCategory]

  /** The configured max of the `k`-th Lighthouse category. */
  function LighthouseMax(k: nat): (m: real)
    requires k < 4
    ensures LighthouseCategories[k] in MaxPointsConfig && m == MaxPointsConfig[LighthouseCategories[k]]
  {
    [20.0, 10.0, 5.0, 5.0][k]
  }

  function LighthouseScore(run: LighthouseRun, k: nat): Option<real>
    requires run.Scores? && k < 4
  {
    [run.performance, run.accessibility, run.bestPractices, run.seo][k]
  }

  function LighthouseStatus(score: real): Status {
    if score >= 0.9 then Pass else if score >= 0.5 then Warn else Fail
  }

  /**
   * The four findings of one Lighthouse run, in category order; `round2`
   * stands for Python's `round(x, 2)`.
   */
  function LighthouseFindings(run: LighthouseRun, round2: real -> real): (fs: seq<Finding>)
    ensures |fs| == 4
    ensures forall k :: 0 <= k < 4 ==> fs[k] == LighthouseFinding(run, k, round2)
  {
    seq(4, k requires 0 <= k < 4 => LighthouseFinding(run, k, round2))
  }

  /** The finding of the `k`-th category of one Lighthouse run. */
  function LighthouseFinding(run: LighthouseRun, k: nat, round2: real -> real): (f: Finding)
    requires k < 4
    ensures f.category == LighthouseCategories[k] && f.max == LighthouseMax(k)
    ensures !run.Scores? ==> f.earned == 0.0 && f.status == (if run.NotInstalled? then Warn else Fail)
    ensures run.Scores? ==>
              f.earned == (match LighthouseScore(run, k) case Some(s) => round2(s * f.max) case None => 0.0)
    ensures run.Scores? && LighthouseScore(run, k).Some? ==> f.status == LighthouseStatus(LighthouseScore(run, k).value)
    ensures run.Scores? && LighthouseScore(run, k).None? ==> f.status == Fail
  {
    var cat := LighthouseCategories[k];
    var max := LighthouseMax(k);
    match run
    case Scores(_, _, _, _) =>
      (match LighthouseScore(run, k)
       case Some(s) => Finding(cat, "Lighthouse Score", round2(s * max), max, LighthouseStatus(s))
       case None => Finding(cat, "Lighthouse Score", 0.0, max, Fail))
    case NotInstalled => Finding(cat, "Lighthouse Execution", 0.0, max, Warn)
    case CliFailed => Finding(cat, "Lighthouse Execution", 0.0, max, Fail)
    case RuntimeError => Finding(cat, "Lighthouse Runtime Error", 0.0, max, Fail)
    case TimedOut => Finding(cat, "Lighthouse Execution", 0.0, max, Fail)
    case Crashed => Finding(cat, "Lighthouse Main Error", 0.0, max, Fail)
  }

  /** A better score never has a worse status. */
  lemma LighthouseStatusMonotone(s: real, t: real)
    requires s <= t
    ensures LighthouseStatus(s) == Pass ==> LighthouseStatus(t) == Pass
    ensures LighthouseStatus(t) == Fail ==> LighthouseStatus(s) == Fail
  {
  }

  // ---------------------------------------------------------------------------
  // JavaScript health
  // ---------------------------------------------------------------------------

  datatype LogEntry = LogEntry(level: string, message: string)

  const IgnorePatterns := ["favicon.ico", "extension", "custom-element", "deprecated", "doubleclick.net",
                           "googlesyndication.com", "net::ERR_FAILED", "ResizeObserver loop limit exceeded"]

  predicate Ignored(message: string) {
    exists k :: 0 <= k < |IgnorePatterns| && Contains(Lower(message), Lower(IgnorePatterns[k]))
  }

  /** A console entry counts as a JavaScript error: severe, not ignored, and not an extension's runtime error. */
  predicate IsJsError(e: LogEntry) {
    e.level == "SEVERE" && !Ignored(e.message) &&
    !(Contains(e.message, "Unchecked runtime.lastError") && Contains(e.message, "extension"))
  }

  /** The messages of the entries that count as errors, in log order. */
  function JsErrors(logs: seq<LogEntry>): (errs: seq<string>)
    ensures |errs| <= |logs|
    decreases |logs|
  {
    if logs == [] then []
    else JsErrors(logs[..|logs| - 1]) + (if IsJsError(logs[|logs| - 1]) then [logs[|logs| - 1].message] else [])
  }

  /** The filtering loop of `check_javascript_health`. */
  method CollectJsErrors(logs: seq<LogEntry>) returns (errs: seq<string>)
    ensures errs == JsErrors(logs)
  {
    errs := [];
    for i := 0 to |logs|
      invariant errs == JsErrors(logs[..i])
    {
      assert logs[..i + 1][..i] == logs[..i];
      var e := logs[i];
      if e.level == "SEVERE" && !Ignored(e.message) {
        if Contains(e.message, "Unchecked runtime.lastError") && Contains(e.message, "extension") {
          continue;
        }
        errs := errs + [e.message];
      }
    }
    assert logs[..|logs|] == logs;
  }

  /** The extension clause never fires: "extension" is already an ignored pattern, in any case. */
  lemma ExtensionClauseRedundant(e: LogEntry)
    ensures IsJsError(e) <==> e.level == "SEVERE" && !Ignored(e.message)
  {
    if Contains(e.message, "extension") {
      ContainsLower(e.message, "extension");
      assert Lower("extension") == "extension";
      assert Lower(IgnorePatterns[1]) == "extension";
    }
  }

  /**
   * The JavaScript-health finding from the browser log (`None` when it could
   * not be read). Taking the first line of an empty error message raises an
   * `IndexError` that ends the whole prompt's analysis: the result is `None`.
   */
  function JsHealthFinding(logs: Option<seq<LogEntry>>): (r: Option<Finding>)
    ensures r.Some? ==> r.value.category == JsCategory && r.value.max == MaxPointsConfig[JsCategory]
    ensures r.Some? ==> (r.value.earned == 5.0 <==> logs.Some? && JsErrors(logs.value) == [])
    ensures r.Some? ==> r.value.earned == 0.0 || r.value.earned == 5.0
    ensures r.None? <==> logs.Some? && [] in JsErrors(logs.value)
    ensures logs.None? ==> r == Some(Finding(JsCategory, "JS Console Errors", 0.0, 5.0, Warn))
    ensures logs.Some? && r.Some? ==> (r.value.status == Pass <==> JsErrors(logs.value) == [])
    ensures logs.Some? && r.Some? ==> (r.value.status == Fail <==> JsErrors(logs.value) != [])
  {
    match logs
    case None => Some(Finding(JsCategory, "JS Console Errors", 0.0, 5.0, Warn))
    case Some(entries) =>
      var errs := JsErrors(entries);
      if [] in errs then None
      else if errs == [] then Some(Finding(JsCategory, "JS Console Errors", 5.0, 5.0, Pass))
      else Some(Finding(JsCategory, "JS Console Errors", 0.0, 5.0, Fail))
  }

  /** A message is collected iff some entry that counts as an error carries it. */
  lemma {:induction false} JsErrorsFrom(logs: seq<LogEntry>, m: string)
    ensures m in JsErrors(logs) <==> exists i :: 0 <= i < |logs| && IsJsError(logs[i]) && logs[i].message == m
    decreases |logs|
  {
    if logs != [] {
      var init := logs[..|logs| - 1];
      JsErrorsFrom(init, m);
      if exists i :: 0 <= i < |init| && IsJsError(init[i]) && init[i].message == m {
        var i :| 0 <= i < |init| && IsJsError(init[i]) && init[i].message == m;
        assert logs[i] == init[i];
      }
      if exists i :: 0 <= i < |logs| && IsJsError(logs[i]) && logs[i].message == m {
        var i :| 0 <= i < |logs| && IsJsError(logs[i]) && logs[i].message == m;
        if i < |init| {
          assert init[i] == logs[i];
        }
      }
    }
  }

  /**
   * The check ends the analysis exactly when some severe, not ignored console
   * entry has an empty message, whose first line does not exist.
   */
  lemma JsHealthAbortsOnEmptyMessage(logs: seq<LogEntry>)
    ensures JsHealthFinding(Some(logs)).None? <==>
            exists i :: 0 <= i < |logs| && IsJsError(logs[i]) && logs[i].message == []
  {
    JsErrorsFrom(logs, []);
  }
}
