/**
 * The first analyzer's scoring (v1/main.py): the Axe-core rule, the viewport
 * meta rule, the rendered-contrast rule, `_add_finding`, which adds every
 * finding to both its category's earned and its max, and `generate_report`,
 * which totals every category.
 */
module ScoringV1 {
  import opened Findings
  import opened Wrappers
  import opened Text
  import opened Lexemes
  import S = ScoringV4
  import R = ScoringV2
  import T = TechnicalV4
  import C4 = ColourV4
  import C1 = ColourV1

  // ---------------------------------------------------------------------------
  // Accessibility (Axe-core)
  // ---------------------------------------------------------------------------

  const AxeCategory := "Accessibility (Axe-core)"
  const AxePoints := 20.0

  /** What one violation costs: 2 when critical, 1 when serious, 0.5 otherwise. */
  function ImpactPenalty(impact: string): real {
    if impact == "critical" then 2.0 else if impact == "serious" then 1.0 else 0.5
  }

  /** The penalty the loop adds up over the violations' impacts. */
  function Penalty(impacts: seq<string>): (p: real)
    ensures p >= 0.0
    decreases |impacts|
  {
    if impacts == [] then 0.0 else Penalty(impacts[..|impacts| - 1]) + ImpactPenalty(impacts[|impacts| - 1])
  }

  function Count(impacts: seq<string>, impact: string): nat {
    multiset(impacts)[impact]
  }

  /** The penalty by counts: 2 per critical, 1 per serious, 0.5 per any other violation. */
  lemma {:induction false} PenaltyByCounts(impacts: seq<string>)
    ensures Count(impacts, "critical") + Count(impacts, "serious") <= |impacts|
    ensures Penalty(impacts) == 2.0 * Count(impacts, "critical") as real + Count(impacts, "serious") as real
                                + 0.5 * (|impacts| - Count(impacts, "critical") - Count(impacts, "serious")) as real
    decreases |impacts|
  {
    if impacts != [] {
      var n := |impacts| - 1;
      var init, last := impacts[..n], impacts[n];
      assert impacts == init + [last];
      assert multiset(impacts) == multiset(init) + multiset{last};
      PenaltyByCounts(init);
    }
  }

  /** Penalties add up over concatenated violation lists. */
  lemma {:induction false} PenaltyAppend(xs: seq<string>, ys: seq<string>)
    ensures Penalty(xs + ys) == Penalty(xs) + Penalty(ys)
    decreases |ys|
  {
    if ys == [] {
      assert xs + ys == xs;
    } else {
      var n := |ys| - 1;
      PenaltyAppend(xs, ys[..n]);
      assert (xs + ys)[..|xs + ys| - 1] == xs + ys[..n];
    }
  }

  /** Every violation costs at least 0.5. */
  lemma PenaltyAtLeastHalf(impacts: seq<string>)
    ensures Penalty(impacts) >= 0.5 * |impacts| as real
  {
    PenaltyByCounts(impacts);
  }

  /** The loop over the violations, with its penalty and its critical and serious counters. */
  method ScanViolations(impacts: seq<string>) returns (penalty: real, critical: nat, serious: nat)
    ensures penalty == Penalty(impacts)
    ensures critical == Count(impacts, "critical") && serious == Count(impacts, "serious")
  {
    penalty, critical, serious := 0.0, 0, 0;
    for i := 0 to |impacts|
      invariant penalty == Penalty(impacts[..i])
      invariant critical == Count(impacts[..i], "critical") && serious == Count(impacts[..i], "serious")
    {
      assert impacts[..i + 1] == impacts[..i] + [impacts[i]];
      assert impacts[..i + 1][..i] == impacts[..i];
      if impacts[i] == "critical" {
        penalty := penalty + 2.0;
        critical := critical + 1;
      } else if impacts[i] == "serious" {
        penalty := penalty + 1.0;
        serious := serious + 1;
      } else {
        penalty := penalty + 0.5;
      }
    }
    assert impacts[..|impacts|] == impacts;
  }

  /** `max(0, int(20 - penalty))`, with `int` truncating toward zero. */
  function AxeEarned(penalty: real): (e: real)
    requires penalty >= 0.0
    ensures 0.0 <= e <= AxePoints
    ensures e <= AxePoints - penalty < e + 1.0 || (penalty >= AxePoints && e == 0.0)
    ensures e == (if penalty >= AxePoints then 0.0 else (AxePoints - penalty).Floor as real)
  {
    var t := C4.Trunc(AxePoints - penalty);
    if t < 0 then 0.0 else t as real
  }

  /**
   * `check_accessibility_axe`, given the violations' impacts (`None` when
   * running Axe failed): a 0/0 note that the report was written, then the
   * violations finding.
   */
  function AxeFindings(run: Option<seq<string>>): (fs: seq<Finding>)
    ensures forall i :: 0 <= i < |fs| ==> fs[i].category == AxeCategory
    ensures WithinMax(fs)
    ensures run.None? ==> |fs| == 1 && fs[0].earned == 0.0 && fs[0].max == AxePoints && fs[0].status == Fail
    ensures run.Some? ==> |fs| == 2 && fs[0].max == 0.0 && fs[1].max == AxePoints
    ensures run.Some? ==> (fs[1].earned == AxePoints <==> run.value == [])
    ensures run.Some? && run.value == [] ==> fs[1].status == Pass
    ensures run.Some? && run.value != [] ==> fs[1].earned == AxeEarned(Penalty(run.value))
    ensures run.Some? && run.value != [] ==>
              (fs[1].status == Fail <==> "critical" in run.value || Count(run.value, "serious") > 2)
    ensures run.Some? && run.value != [] ==> fs[1].status == Fail || fs[1].status == Warn
  {
    match run
    case None => [Finding(AxeCategory, "Axe Execution", 0.0, 20.0, Fail)]
    case Some(impacts) =>
      var report := Finding(AxeCategory, "Axe Report Generated", 0.0, 0.0, Info);
      if impacts == [] then [report, Finding(AxeCategory, "Axe Violations", 20.0, 20.0, Pass)]
      else
        PenaltyAtLeastHalf(impacts);
        var critical := Count(impacts, "critical");
        var status := if critical > 0 || Count(impacts, "serious") > 2 then Fail else Warn;
        [report, Finding(AxeCategory, "Axe Violations", AxeEarned(Penalty(impacts)), 20.0, status)]
  }

  /** `check_accessibility_axe` with its loop over the violations. */
  method CheckAxe(run: Option<seq<string>>) returns (fs: seq<Finding>)
    ensures fs == AxeFindings(run)
  {
    if run.None? {
      return [Finding(AxeCategory, "Axe Execution", 0.0, 20.0, Fail)];
    }
    var impacts := run.value;
    var report := Finding(AxeCategory, "Axe Report Generated", 0.0, 0.0, Info);
    if impacts == [] {
      return [report, Finding(AxeCategory, "Axe Violations", 20.0, 20.0, Pass)];
    }
    var penalty, critical, serious := ScanViolations(impacts);
    PenaltyAtLeastHalf(impacts);
    var earned := AxeEarned(penalty);
    var status := if critical > 0 || serious > 2 then Fail else Warn;
    fs := [report, Finding(AxeCategory, "Axe Violations", earned, 20.0, status)];
  }

  /** Further violations never raise the score, and forty or more leave nothing. */
  lemma AxeMonotone(impacts: seq<string>, more: seq<string>)
    ensures AxeFindings(Some(impacts + more))[1].earned <= AxeFindings(Some(impacts))[1].earned
    ensures |impacts| >= 40 ==> AxeFindings(Some(impacts))[1].earned == 0.0
  {
    PenaltyAppend(impacts, more);
    PenaltyAtLeastHalf(impacts);
    PenaltyAtLeastHalf(more);
    if impacts == [] {
      assert impacts + more == more;
    } else {
      EarnedDecreasing(Penalty(impacts), Penalty(impacts + more));
    }
  }

  /** A larger penalty never earns more. */
  lemma EarnedDecreasing(p: real, q: real)
    requires 0.0 <= p <= q
    ensures AxeEarned(q) <= AxeEarned(p)
  {
    assert C4.Trunc(AxePoints - q) <= C4.Trunc(AxePoints - p) by {
      if AxePoints - q >= 0.0 {
        assert (AxePoints - q).Floor <= (AxePoints - p).Floor;
      }
    }
  }

  // ---------------------------------------------------------------------------
  // The viewport meta tag
  // ---------------------------------------------------------------------------

  const CssCategory := "CSS & Responsiveness"

  predicate HasDeviceWidth(c: string) {
    Contains(c, "width=device-width")
  }

  predicate HasInitialScale(c: string) {
    Contains(c, "initial-scale=1") || Contains(c, "initial-scale=1.0")
  }

  /** Zoom locked: `user-scalable=no`, or maximum, initial and minimum scale all `1`, by substring. */
  predicate ZoomLocked(c: string) {
    Contains(c, "user-scalable=no") ||
    (Contains(c, "maximum-scale=1") && Contains(c, "initial-scale=1") && Contains(c, "minimum-scale=1"))
  }

  /** How many of the two wanted directives (device width, initial scale 1) the content lacks. */
  function Missing(c: string): (n: nat)
    ensures n <= 2
    ensures n == 0 <==> HasDeviceWidth(c) && HasInitialScale(c)
  {
    (if HasDeviceWidth(c) then 0 else 1) + (if HasInitialScale(c) then 0 else 1)
  }

  /**
   * The viewport meta finding from the tag's `content` (`None` when there is
   * no tag): one point each for device width and initial scale 1, nothing
   * when zoom is locked.
   */
  function ViewportMetaFinding(content: Option<string>): (f: Finding)
    ensures f.category == CssCategory && f.max == 2.0
    ensures f.earned == 0.0 || f.earned == 1.0 || f.earned == 2.0
    ensures f.earned == 2.0 <==>
              content.Some? && HasDeviceWidth(Lower(content.value)) && HasInitialScale(Lower(content.value)) &&
              !ZoomLocked(Lower(content.value))
    ensures f.status == Pass <==> f.earned == 2.0
    ensures content.Some? && ZoomLocked(Lower(content.value)) ==> f.earned == 0.0 && f.status == Fail
    ensures content.None? ==> f.earned == 0.0 && f.status == Fail
    ensures content.Some? && !ZoomLocked(Lower(content.value)) ==>
              f.earned == (2 - Missing(Lower(content.value))) as real &&
              (f.status == Warn <==> Missing(Lower(content.value)) > 0)
  {
    match content
    case None => Finding(CssCategory, "Viewport Meta", 0.0, 2.0, Fail)
    case Some(raw) =>
      var c := Lower(raw);
      var vp := 2 - (if HasDeviceWidth(c) then 0 else 1) - (if HasInitialScale(c) then 0 else 1);
      if ZoomLocked(c) then Finding(CssCategory, "Viewport Meta", 0.0, 2.0, Fail)
      else Finding(CssCategory, "Viewport Meta", (if vp < 0 then 0 else vp) as real, 2.0, if vp == 2 then Pass else Warn)
  }

  /** The "initial-scale=1.0" alternative adds nothing: it always contains "initial-scale=1". */
  lemma InitialScaleAlternativeRedundant(c: string)
    ensures HasInitialScale(c) <==> Contains(c, "initial-scale=1")
  {
    if Contains(c, "initial-scale=1.0") {
      assert "initial-scale=1.0" == "initial-scale=1" + ".0";
      ContainsPrefixOf(c, "initial-scale=1", ".0");
    }
  }

  /** A `maximum-scale=10` counts as `maximum-scale=1`: with initial and minimum scale 1 it scores nothing. */
  lemma MaximumScaleTenLocks(content: string)
    requires var c := Lower(content);
      Contains(c, "maximum-scale=10") && Contains(c, "initial-scale=1") && Contains(c, "minimum-scale=1")
    ensures ViewportMetaFinding(Some(content)).earned == 0.0
  {
    assert "maximum-scale=10" == "maximum-scale=1" + "0";
    ContainsPrefixOf(Lower(content), "maximum-scale=1", "0");
  }

  // ---------------------------------------------------------------------------
  // Rendered colour contrast
  // ---------------------------------------------------------------------------

  const ContrastCategory := "Rendered Color & Contrast"
  const ContrastPoints := 15.0
  /** At most this many distinct elements are judged. */
  const CheckCap: nat := 250

  /** What the style script returns for an element: colour, font size and font weight. */
  datatype Style = Style(color: string, fontSize: string, fontWeight: Option<string>)

  /**
   * A candidate text element: its WebDriver id, whether it is displayed, its
   * text and placeholder (read for input and textarea only), its style
   * (`None` when the script returned nothing or an error) and its ancestor
   * chain for the background walk.
   */
  datatype Element = Element(id: int, displayed: bool, text: string, placeholder: string, isField: bool,
                             style: Option<Style>, chain: seq<C4.Node>)

  /** Where the element with `id` is, if it is there. */
  function IndexOf(m: seq<Element>, id: int): (r: Option<nat>)
    ensures r.Some? ==> r.value < |m| && m[r.value].id == id
    ensures r.None? <==> forall i :: 0 <= i < |m| ==> m[i].id != id
  {
    if m == [] then None
    else if m[0].id == id then Some(0)
    else match IndexOf(m[1..], id)
      case None => None
      case Some(i) => Some(i + 1)
  }

  /** `unique_web_elements_map[el.id] = el`: a known id keeps its place and takes the new element. */
  function Put(m: seq<Element>, e: Element): seq<Element> {
    match IndexOf(m, e.id)
      case Some(j) => m[j := e]
      case None => m + [e]
  }

  /** The candidates keyed by id, in first-seen order. */
  function ById(es: seq<Element>): seq<Element>
    decreases |es|
  {
    if es == [] then [] else Put(ById(es[..|es| - 1]), es[|es| - 1])
  }

  predicate DistinctIds(m: seq<Element>) {
    forall i, j :: 0 <= i < j < |m| ==> m[i].id != m[j].id
  }

  function IdsOf(m: seq<Element>): set<int> {
    set i | 0 <= i < |m| :: m[i].id
  }

  /** Putting an element keeps ids distinct, adds its id, and leaves one entry per id. */
  lemma PutKeeps(m: seq<Element>, e: Element)
    requires DistinctIds(m)
    ensures DistinctIds(Put(m, e))
    ensures IdsOf(Put(m, e)) == IdsOf(m) + {e.id}
    ensures e in Put(m, e)
  {
    var r := Put(m, e);
    match IndexOf(m, e.id)
    case Some(j) =>
      forall x | x in IdsOf(r) ensures x in IdsOf(m) + {e.id} {
        var i :| 0 <= i < |r| && r[i].id == x;
        if i != j { assert r[i] == m[i]; }
      }
      forall x | x in IdsOf(m) + {e.id} ensures x in IdsOf(r) {
        if x == e.id { assert r[j].id == x; }
        else {
          var i :| 0 <= i < |m| && m[i].id == x;
          assert r[i] == m[i];
        }
      }
    case None =>
      forall x | x in IdsOf(r) ensures x in IdsOf(m) + {e.id} {
        var i :| 0 <= i < |r| && r[i].id == x;
        if i < |m| { assert r[i] == m[i]; }
      }
      forall x | x in IdsOf(m) + {e.id} ensures x in IdsOf(r) {
        if x == e.id { assert r[|m|].id == x; }
        else {
          var i :| 0 <= i < |m| && m[i].id == x;
          assert r[i] == m[i];
        }
      }
  }

  /** Keying by id keeps exactly the ids of the candidates, each once, and the last element seen is kept. */
  lemma {:induction false} ByIdDistinct(es: seq<Element>)
    ensures DistinctIds(ById(es)) && IdsOf(ById(es)) == IdsOf(es) && |ById(es)| <= |es|
    ensures es != [] ==> es[|es| - 1] in ById(es)
    decreases |es|
  {
    if es != [] {
      var n := |es| - 1;
      ByIdDistinct(es[..n]);
      PutKeeps(ById(es[..n]), es[n]);
      IdsOfSnoc(es);
      assert |ById(es)| <= |ById(es[..n])| + 1;
    }
  }

  lemma IdsOfSnoc(es: seq<Element>)
    requires es != []
    ensures IdsOf(es) == IdsOf(es[..|es| - 1]) + {es[|es| - 1].id}
  {
    var n := |es| - 1;
    forall x | x in IdsOf(es) ensures x in IdsOf(es[..n]) + {es[n].id} {
      var i :| 0 <= i < |es| && es[i].id == x;
      if i < n { assert es[..n][i] == es[i]; }
    }
    forall x | x in IdsOf(es[..n]) + {es[n].id} ensures x in IdsOf(es) {
      if x != es[n].id {
        var i :| 0 <= i < n && es[..n][i].id == x;
        assert es[i] == es[..n][i];
      }
    }
  }

  /** The loop that builds `unique_web_elements_map`. */
  method DedupById(es: seq<Element>) returns (m: seq<Element>)
    ensures m == ById(es)
  {
    m := [];
    for i := 0 to |es|
      invariant m == ById(es[..i])
    {
      assert es[..i + 1][..i] == es[..i];
      match IndexOf(m, es[i].id) {
        case Some(j) => m := m[j := es[i]];
        case None => m := m + [es[i]];
      }
    }
    assert es[..|es|] == es;
  }

  /** The elements judged: those keyed by id, capped at the first 250. */
  function ToCheck(es: seq<Element>): (r: seq<Element>)
    ensures |r| <= CheckCap
    ensures r <= ById(es)
    ensures |r| == CheckCap || |r| == |ById(es)|
  {
    var u := ById(es);
    if |u| > CheckCap then u[..CheckCap] else u
  }

  /** The text judged: the stripped text, or the stripped placeholder of an empty input or textarea. */
  function TextToJudge(e: Element): string {
    var text := Strip(e.text);
    if text != [] then text else if e.isField then Strip(e.placeholder) else []
  }

  /** `str(weight) == 'bold'`, or a weight of all digits that is at least 700. */
  predicate IsBold(weight: Option<string>) {
    var w := weight.GetOr("None");
    w == "bold" || (w != [] && AllDigits(w) && DigitsValue(w) >= 700)
  }

  /** What happened to one element: skipped, counted without a verdict, failing AA, or passing AA. */
  datatype Verdict = Skipped | CountedOnly | FailsAA | PassesAA

  /**
   * One pass of the contrast loop. `meetsAA` stands for the contrast
   * library's AA verdict on the text colour, the effective background and the
   * large-text flag. Any exception skips the element (a colour or a
   * background that raises); one raised after the element was counted
   * (reading the font size) leaves it counted without a verdict.
   */
  function Judge(e: Element, meetsAA: (C4.Rgb, C4.Rgb, bool) -> bool): Verdict {
    if !e.displayed || TextToJudge(e) == [] || e.style.None? then Skipped
    else
      var st := e.style.value;
      if st.color == [] || st.fontSize == [] then Skipped
      else
        var fg := C1.ParseColor(st.color);
        var bg := C1.EffectiveBackground(e.chain);
        if !fg.Colour? || bg.BgError? then Skipped
        else match FloatLexeme(KeepNumeric(st.fontSize))
          case None => CountedOnly
          case Some(size) =>
            if meetsAA(fg.rgb, bg.rgb, T.IsLarge(size, IsBold(st.fontWeight))) then PassesAA else FailsAA
  }

  /** The loop's counters: elements checked, and AA failures. */
  datatype Tally = Tally(checked: nat, failsAA: nat)

  function Tallied(v: Verdict, t: Tally): Tally {
    match v
    case Skipped => t
    case CountedOnly => t.(checked := t.checked + 1)
    case FailsAA => Tally(t.checked + 1, t.failsAA + 1)
    case PassesAA => t.(checked := t.checked + 1)
  }

  /** The counters after judging `es` in order. */
  function TallyOf(es: seq<Element>, meetsAA: (C4.Rgb, C4.Rgb, bool) -> bool): (t: Tally)
    ensures t.failsAA <= t.checked <= |es|
    decreases |es|
  {
    if es == [] then Tally(0, 0)
    else Tallied(Judge(es[|es| - 1], meetsAA), TallyOf(es[..|es| - 1], meetsAA))
  }

  /** The contrast loop over the elements to check. */
  method ScanContrast(es: seq<Element>, meetsAA: (C4.Rgb, C4.Rgb, bool) -> bool) returns (checked: nat, failsAA: nat)
    ensures Tally(checked, failsAA) == TallyOf(es, meetsAA)
  {
    checked, failsAA := 0, 0;
    for i := 0 to |es|
      invariant Tally(checked, failsAA) == TallyOf(es[..i], meetsAA)
    {
      assert es[..i + 1][..i] == es[..i];
      var t := Tallied(Judge(es[i], meetsAA), Tally(checked, failsAA));
      checked, failsAA := t.checked, t.failsAA;
    }
    assert es[..|es|] == es;
  }

  /**
   * The result once there were candidates: none checked is zero, each AA
   * failure costs 3 points down to zero, and no failure is full marks.
   */
  function ContrastResult(t: Tally): (f: Finding)
    ensures f.category == ContrastCategory && f.max == ContrastPoints
    ensures 0.0 <= f.earned <= f.max
    ensures f.earned == ContrastPoints <==> t.checked > 0 && t.failsAA == 0
    ensures f.status == Pass <==> f.earned == ContrastPoints
    ensures t.checked == 0 ==> f.earned == 0.0 && f.status == Fail
    ensures t.checked > 0 && t.failsAA > 0 ==>
              f.status == Fail && f.earned == (if t.failsAA >= 5 then 0.0 else ContrastPoints - 3.0 * t.failsAA as real)
  {
    if t.checked == 0 then Finding(ContrastCategory, "Contrast Check Result", 0.0, 15.0, Fail)
    else if t.failsAA > 0 then
      var earned := 15 - t.failsAA * 3;
      Finding(ContrastCategory, "Contrast Check Result", (if earned < 0 then 0 else earned) as real, 15.0, Fail)
    else Finding(ContrastCategory, "Contrast Check Result", 15.0, 15.0, Pass)
  }

  /** More AA failures never earn more, and five or more earn nothing. */
  lemma ContrastMonotone(checked: nat, n: nat, m: nat)
    requires checked > 0 && n <= m
    ensures ContrastResult(Tally(checked, m)).earned <= ContrastResult(Tally(checked, n)).earned
    ensures m >= 5 ==> ContrastResult(Tally(checked, m)).earned == 0.0
  {
  }

  /**
   * `check_rendered_color_contrast`, given the candidates (`None` when
   * fetching them failed): no candidates is full marks; more than 250
   * distinct elements adds a 0/0 note; then the result.
   */
  function ContrastFindings(candidates: Option<seq<Element>>, meetsAA: (C4.Rgb, C4.Rgb, bool) -> bool): (fs: seq<Finding>)
    ensures 1 <= |fs| <= 2 && WithinMax(fs)
    ensures forall i :: 0 <= i < |fs| ==> fs[i].category == ContrastCategory
    ensures forall i :: 0 <= i < |fs| - 1 ==> fs[i].max == 0.0
    ensures fs[|fs| - 1].max == ContrastPoints
    ensures candidates.None? ==> fs == [Finding(ContrastCategory, "Contrast Element Fetch", 0.0, 15.0, Fail)]
    ensures candidates == Some([]) ==> fs == [Finding(ContrastCategory, "Contrast Check", 15.0, 15.0, Info)]
    ensures candidates.Some? && candidates.value != [] ==>
              fs[|fs| - 1] == ContrastResult(TallyOf(ToCheck(candidates.value), meetsAA)) &&
              (|fs| == 2 <==> |ById(candidates.value)| > CheckCap)
  {
    match candidates
    case None => [Finding(ContrastCategory, "Contrast Element Fetch", 0.0, 15.0, Fail)]
    case Some(es) =>
      if es == [] then [Finding(ContrastCategory, "Contrast Check", 15.0, 15.0, Info)]
      else
        NoteThen(|ById(es)| > CheckCap, ContrastResult(TallyOf(ToCheck(es), meetsAA)))
  }

  /** The result finding, after a 0/0 note on the element count when there is one. */
  function NoteThen(note: bool, r: Finding): (fs: seq<Finding>)
    requires r.category == ContrastCategory && r.max == ContrastPoints && 0.0 <= r.earned <= r.max
    ensures |fs| == (if note then 2 else 1) && fs[|fs| - 1] == r && WithinMax(fs)
    ensures forall i :: 0 <= i < |fs| ==> fs[i].category == ContrastCategory
    ensures forall i :: 0 <= i < |fs| - 1 ==> fs[i].max == 0.0
  {
    (if note then [Finding(ContrastCategory, "Contrast Element Count", 0.0, 0.0, Info)] else []) + [r]
  }

  /** `check_rendered_color_contrast` with its loops. */
  method CheckContrast(candidates: Option<seq<Element>>, meetsAA: (C4.Rgb, C4.Rgb, bool) -> bool) returns (fs: seq<Finding>)
    ensures fs == ContrastFindings(candidates, meetsAA)
  {
    if candidates.None? {
      return [Finding(ContrastCategory, "Contrast Element Fetch", 0.0, 15.0, Fail)];
    }
    var es := candidates.value;
    if es == [] {
      return [Finding(ContrastCategory, "Contrast Check", 15.0, 15.0, Info)];
    }
    var toCheck := DedupById(es);
    fs := [];
    if |toCheck| > CheckCap {
      fs := [Finding(ContrastCategory, "Contrast Element Count", 0.0, 0.0, Info)];
      toCheck := toCheck[..CheckCap];
    }
    var checked, failsAA := ScanContrast(toCheck, meetsAA);
    fs := fs + [ContrastResult(Tally(checked, failsAA))];
  }

  /** Whatever the candidates, the contrast check puts 15 points at stake and earns between 0 and 15. */
  lemma ContrastTotals(candidates: Option<seq<Element>>, meetsAA: (C4.Rgb, C4.Rgb, bool) -> bool)
    ensures var fs := ContrastFindings(candidates, meetsAA);
            Sum(Maxima(fs)) == ContrastPoints && 0.0 <= Sum(Earned(fs)) <= ContrastPoints
  {
    NoteThenResult(ContrastFindings(candidates, meetsAA));
  }

  /** A result finding, possibly after a 0/0 note: the totals are the result's. */
  lemma NoteThenResult(fs: seq<Finding>)
    requires 1 <= |fs| <= 2 && WithinMax(fs)
    requires forall i :: 0 <= i < |fs| - 1 ==> fs[i].max == 0.0
    ensures Sum(Maxima(fs)) == fs[|fs| - 1].max
    ensures 0.0 <= Sum(Earned(fs)) <= fs[|fs| - 1].max
  {
    var last := fs[|fs| - 1];
    if |fs| == 1 {
      assert Maxima(fs) == [last.max] && Earned(fs) == [last.earned];
      SumCons(last.max, []);
      SumCons(last.earned, []);
    } else {
      assert Maxima(fs) == [0.0] + [last.max] && Earned(fs) == [fs[0].earned] + [last.earned];
      SumCons(0.0, [last.max]);
      SumCons(last.max, []);
      SumCons(fs[0].earned, [last.earned]);
      SumCons(last.earned, []);
    }
  }

  // ---------------------------------------------------------------------------
  // The score sheet and the report
  // ---------------------------------------------------------------------------

  /** Every recorded finding earns between zero and its own maximum. */
  ghost predicate DetailsWithin(cats: seq<S.Category>) {
    forall i, k :: 0 <= i < |cats| && 0 <= k < |cats[i].details| ==>
      0.0 <= cats[i].details[k].finding.earned <= cats[i].details[k].finding.max
  }

  /** Recording a finding within its maximum keeps every recorded finding within its maximum. */
  lemma RecordWithin(cats: seq<S.Category>, f: Finding, viewport: string)
    requires DetailsWithin(cats) && 0.0 <= f.earned <= f.max
    ensures DetailsWithin(R.Record(cats, f, viewport))
  {
    var r := R.Record(cats, f, viewport);
    forall i, k | 0 <= i < |r| && 0 <= k < |r[i].details|
      ensures 0.0 <= r[i].details[k].finding.earned <= r[i].details[k].finding.max
    {
      match S.Lookup(cats, f.category)
      case None =>
        if i < |cats| { assert r[i] == cats[i]; }
      case Some(j) =>
        if i != j { assert r[i] == cats[i]; }
        else if k < |cats[j].details| { assert r[i].details[k] == cats[j].details[k]; }
    }
  }

  /** The totals of `generate_report`. */
  datatype Report = Report(earned: real, max: real, percent: real)

  /** Earned and max summed over every category; `round` of the percentage, or 0 when the max is 0. */
  function ReportOf(cats: seq<S.Category>, round: real -> real): Report {
    var earned := Sum(S.EarnedOf(cats));
    var max := Sum(S.MaximaOf(cats));
    Report(earned, max, if max > 0.0 then round(S.Percent(earned, max)) else 0.0)
  }

  /**
   * When every recorded finding lies within its own maximum, the overall
   * earned lies between 0 and the overall max, and the percentage before
   * rounding between 0 and 100.
   */
  lemma ReportWithin(cats: seq<S.Category>)
    requires R.Tallied(cats) && DetailsWithin(cats)
    ensures var r := ReportOf(cats, x => x);
            0.0 <= r.earned <= r.max && 0.0 <= r.percent <= 100.0
  {
    forall i | 0 <= i < |cats|
      ensures 0.0 <= cats[i].earned <= cats[i].max
    {
      var ds := cats[i].details;
      forall k | 0 <= k < |ds|
        ensures 0.0 <= S.DetailEarned(ds)[k] <= R.DetailMax(ds)[k]
      {
        assert ds[k] == cats[i].details[k];
      }
      SumNonNegative(S.DetailEarned(ds));
      SumMonotone(S.DetailEarned(ds), R.DetailMax(ds));
    }
    SumNonNegative(S.EarnedOf(cats));
    SumMonotone(S.EarnedOf(cats), S.MaximaOf(cats));
  }

  /** Starting from no categories, the report's totals are the sums over every finding recorded. */
  lemma ReportCountsEveryFinding(fs: seq<Finding>, viewport: string, round: real -> real)
    ensures var r := ReportOf(R.RecordAll([], fs, viewport), round);
            r.earned == Sum(Earned(fs)) && r.max == Sum(Maxima(fs))
  {
    assert R.Tallied([]);
    R.RecordAllTallied([], fs, viewport);
  }

  class Scores {
    /** `current_viewport_name`. */
    var viewport: string
    /** `self.scores`, in insertion order. */
    var cats: seq<S.Category>

    ghost predicate Valid()
      reads this
    {
      R.Tallied(cats)
    }

    constructor ()
      ensures Valid()
      ensures viewport == "initial" && cats == []
    {
      viewport := "initial";
      cats := [];
    }

    /** `_load_page_at_viewport`: the viewport becomes current. */
    method EnterViewport(name: string)
      requires Valid()
      modifies this
      ensures Valid()
      ensures viewport == name && cats == old(cats)
    {
      viewport := name;
    }

    /** `_add_finding`: the points are added to the category's earned and to its max. */
    method AddFinding(category: string, check: string, earned: real, max: real, status: Status)
      requires Valid()
      modifies this
      ensures Valid()
      ensures viewport == old(viewport)
      ensures cats == R.Record(old(cats), Finding(category, check, earned, max, status), viewport)
      ensures Sum(S.EarnedOf(cats)) == Sum(S.EarnedOf(old(cats))) + earned
      ensures Sum(S.MaximaOf(cats)) == Sum(S.MaximaOf(old(cats))) + max
    {
      var f := Finding(category, check, earned, max, status);
      R.RecordTallied(cats, f, viewport);
      cats := R.Record(cats, f, viewport);
    }

    /** A check's findings, added in order. */
    method AddFindings(fs: seq<Finding>)
      requires Valid()
      modifies this
      ensures Valid()
      ensures viewport == old(viewport)
      ensures cats == R.RecordAll(old(cats), fs, viewport)
    {
      var c := cats;
      for k := 0 to |fs|
        modifies {}
        invariant R.Tallied(c)
        invariant c == R.RecordAll(cats, fs[..k], viewport)
      {
        ghost var before := fs[..k];
        assert fs[..k + 1] == before + [fs[k]];
        R.RecordTallied(c, fs[k], viewport);
        R.RecordAllSnoc(cats, before, fs[k], viewport);
        c := R.Record(c, fs[k], viewport);
      }
      assert fs[..|fs|] == fs;
      cats := c;
    }

    /** `generate_report`: the loop over the categories, then the percentage. */
    method GenerateReport(round: real -> real) returns (r: Report)
      requires Valid()
      ensures r == ReportOf(cats, round)
    {
      var earned, max := 0.0, 0.0;
      for i := 0 to |cats|
        invariant earned == Sum(S.EarnedOf(cats[..i])) && max == Sum(S.MaximaOf(cats[..i]))
      {
        assert cats[..i + 1] == cats[..i] + [cats[i]];
        assert S.EarnedOf(cats[..i + 1]) == S.EarnedOf(cats[..i]) + [cats[i].earned];
        assert S.MaximaOf(cats[..i + 1]) == S.MaximaOf(cats[..i]) + [cats[i].max];
        SumAppend(S.EarnedOf(cats[..i]), cats[i].earned);
        SumAppend(S.MaximaOf(cats[..i]), cats[i].max);
        earned := earned + cats[i].earned;
        max := max + cats[i].max;
      }
      assert cats[..|cats|] == cats;
      r := Report(earned, max, if max > 0.0 then round(S.Percent(earned, max)) else 0.0);
    }
  }
}
