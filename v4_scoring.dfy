/**
 * Scoring of one prompt and of one model's run in the v4 analyzer: the
 * bookkeeping of `_add_finding`, the deduplicating adherence loop of
 * `check_prompt_adherence`, the run-once flags of
 * `run_single_prompt_analysis`, the capping and weighting of
 * `get_prompt_report_data` and the aggregation block of `main`.
 */
module ScoringV4 {
  import opened Wrappers
  import opened Text
  import opened Findings
  import T = TechnicalV4
  import C = ChecksV4

  const WeightTechnical: real := 0.3
  const WeightAdherence: real := 0.7
  const AdherenceCategory := "Prompt Adherence Details"
  const PageLoadCategory := "Page Load Errors"

  // ---------------------------------------------------------------------------
  // Category maxima (`_add_finding`)
  // ---------------------------------------------------------------------------

  /**
   * The max a technical category is fixed at: its configured base (0 for an
   * unconfigured category), doubled for a per-viewport category when the
   * viewport plan has both a "desktop" and a "mobile" key.
   */
  function CategoryMax(category: string, plan: seq<string>, config: map<string, real>, scalable: set<string>): (m: real)
    ensures category !in config ==> m == 0.0
    ensures category in config ==> m == config[category] || m == 2.0 * config[category]
    ensures category in config && config[category] != 0.0 ==>
      (m == 2.0 * config[category] <==> category in scalable && "desktop" in plan && "mobile" in plan)
  {
    var base := if category in config then config[category] else 0.0;
    if category in scalable && "desktop" in plan && "mobile" in plan then base * 2.0 else base
  }

  /** Every configured base is positive; page-load errors and adherence details are not configured. */
  lemma ConfiguredBases()
    ensures forall c :: c in T.MaxPointsConfig ==> T.MaxPointsConfig[c] > 0.0
    ensures PageLoadCategory !in T.MaxPointsConfig
    ensures AdherenceCategory !in T.MaxPointsConfig
  {
  }

  /**
   * One technical category: its name, earned points, max and findings. The
   * categories form a dict; the model keeps them as a list in insertion
   * order, which is the order the report sums them in.
   */
  datatype Category = Category(name: string, earned: real, max: real, details: seq<Detail>)

  /** Where the category named `name` is, if it is there. */
  function Lookup(cats: seq<Category>, name: string): (r: Option<nat>)
    ensures r.Some? ==> r.value < |cats| && cats[r.value].name == name
    ensures r.None? <==> forall i :: 0 <= i < |cats| ==> cats[i].name != name
  {
    if cats == [] then None
    else if cats[0].name == name then Some(0)
    else match Lookup(cats[1..], name)
      case None => None
      case Some(i) => Some(i + 1)
  }

  ghost predicate UniqueNames(cats: seq<Category>) {
    forall i, j :: 0 <= i < j < |cats| ==> cats[i].name != cats[j].name
  }

  function MaximaOf(cats: seq<Category>): (xs: seq<real>)
    ensures |xs| == |cats|
    ensures forall i :: 0 <= i < |cats| ==> xs[i] == cats[i].max
  {
    seq(|cats|, i requires 0 <= i < |cats| => cats[i].max)
  }

  function EarnedOf(cats: seq<Category>): (xs: seq<real>)
    ensures |xs| == |cats|
    ensures forall i :: 0 <= i < |cats| ==> xs[i] == cats[i].earned
  {
    seq(|cats|, i requires 0 <= i < |cats| => cats[i].earned)
  }

  lemma EntryUpdate(cats: seq<Category>, j: nat, e: Category)
    requires j < |cats|
    ensures MaximaOf(cats[j := e]) == MaximaOf(cats)[j := e.max]
    ensures EarnedOf(cats[j := e]) == EarnedOf(cats)[j := e.earned]
  {
  }

  lemma EntryAppend(cats: seq<Category>, e: Category)
    ensures MaximaOf(cats + [e]) == MaximaOf(cats) + [e.max]
  {
  }

  /**
   * `_add_finding` for a technical finding: an absent category is created
   * at 0/0; a max still at 0 is fixed at `CategoryMax`; the finding's
   * points are added to the earned and the finding is recorded.
   */
  function AddTo(cats: seq<Category>, f: Finding, viewport: string, plan: seq<string>,
                 config: map<string, real>, scalable: set<string>): seq<Category>
  {
    match Lookup(cats, f.category)
      case None =>
        cats + [Category(f.category, 0.0 + f.earned, CategoryMax(f.category, plan, config, scalable), [Detail(f, viewport)])]
      case Some(j) =>
        var e := cats[j];
        var max := if e.max == 0.0 then CategoryMax(f.category, plan, config, scalable) else e.max;
        cats[j := Category(e.name, e.earned + f.earned, max, e.details + [Detail(f, viewport)])]
  }

  /** How much `AddTo` raises the sum of the maxima: the max being fixed, if it is. */
  function MaxGrowth(cats: seq<Category>, category: string, plan: seq<string>,
                     config: map<string, real>, scalable: set<string>): real
  {
    match Lookup(cats, category)
      case None => CategoryMax(category, plan, config, scalable)
      case Some(j) => if cats[j].max == 0.0 then CategoryMax(category, plan, config, scalable) else 0.0
  }

  /** With unique names, looking up a category's name finds that category. */
  lemma LookupFinds(cats: seq<Category>, k: nat)
    requires UniqueNames(cats) && k < |cats|
    ensures Lookup(cats, cats[k].name) == Some(k)
  {
  }

  /** Appending a category under a new name keeps names unique and adds its max to the total. */
  lemma AppendNew(cats: seq<Category>, e: Category)
    requires UniqueNames(cats) && Lookup(cats, e.name).None?
    ensures UniqueNames(cats + [e])
    ensures Sum(MaximaOf(cats + [e])) == Sum(MaximaOf(cats)) + e.max
    ensures Lookup(cats + [e], e.name) == Some(|cats|)
  {
    AppendUnique(cats, e);
    EntryAppend(cats, e);
    SumAppend(MaximaOf(cats), e.max);
    LookupFinds(cats + [e], |cats|);
  }

  lemma AppendUnique(cats: seq<Category>, e: Category)
    requires UniqueNames(cats) && forall i :: 0 <= i < |cats| ==> cats[i].name != e.name
    ensures UniqueNames(cats + [e])
  {
    var c := cats + [e];
    forall i, j | 0 <= i < j < |c|
      ensures c[i].name != c[j].name
    {
      assert c[i] == cats[i];
      if j < |cats| {
        assert c[j] == cats[j];
      }
    }
  }

  lemma ReplaceUnique(cats: seq<Category>, j: nat, e: Category)
    requires UniqueNames(cats) && j < |cats| && e.name == cats[j].name
    ensures UniqueNames(cats[j := e])
  {
    var c := cats[j := e];
    forall a, b | 0 <= a < b < |c|
      ensures c[a].name != c[b].name
    {
      assert c[a].name == cats[a].name && c[b].name == cats[b].name;
    }
  }

  /** Replacing a category by one of the same name keeps names unique and moves the total by the change in max. */
  lemma ReplaceSame(cats: seq<Category>, j: nat, e: Category)
    requires UniqueNames(cats) && j < |cats| && e.name == cats[j].name
    ensures UniqueNames(cats[j := e])
    ensures Sum(MaximaOf(cats[j := e])) == Sum(MaximaOf(cats)) - cats[j].max + e.max
    ensures Lookup(cats[j := e], e.name) == Some(j)
  {
    ReplaceUnique(cats, j, e);
    EntryUpdate(cats, j, e);
    SumUpdate(MaximaOf(cats), j, e.max);
    LookupFinds(cats[j := e], j);
  }

  /** `AddTo` keeps names unique and moves the sum of the maxima by `MaxGrowth`. */
  lemma AddToValid(cats: seq<Category>, f: Finding, viewport: string, plan: seq<string>,
                   config: map<string, real>, scalable: set<string>)
    requires UniqueNames(cats)
    ensures UniqueNames(AddTo(cats, f, viewport, plan, config, scalable))
    ensures Sum(MaximaOf(AddTo(cats, f, viewport, plan, config, scalable)))
            == Sum(MaximaOf(cats)) + MaxGrowth(cats, f.category, plan, config, scalable)
  {
    var m := CategoryMax(f.category, plan, config, scalable);
    var r := AddTo(cats, f, viewport, plan, config, scalable);
    match Lookup(cats, f.category)
      case None =>
        var e := Category(f.category, 0.0 + f.earned, m, [Detail(f, viewport)]);
        assert r == cats + [e];
        AppendNew(cats, e);
      case Some(j) =>
        var prior := cats[j];
        var e := Category(prior.name, prior.earned + f.earned, if prior.max == 0.0 then m else prior.max,
                          prior.details + [Detail(f, viewport)]);
        assert r == cats[j := e];
        ReplaceSame(cats, j, e);
  }

  /** The category called `name` exists and `d` is its last detail. */
  ghost predicate FiledLast(cats: seq<Category>, name: string, d: Detail) {
    match Lookup(cats, name)
      case Some(j) => |cats[j].details| > 0 && cats[j].details[|cats[j].details| - 1] == d
      case None => false
  }

  /** `AddTo` files the finding, with its viewport, as the last detail of its category. */
  lemma AddToRecordsLast(cats: seq<Category>, f: Finding, viewport: string, plan: seq<string>,
                         config: map<string, real>, scalable: set<string>)
    requires UniqueNames(cats)
    ensures FiledLast(AddTo(cats, f, viewport, plan, config, scalable), f.category, Detail(f, viewport))
  {
    var r := AddTo(cats, f, viewport, plan, config, scalable);
    AddToValid(cats, f, viewport, plan, config, scalable);
    match Lookup(cats, f.category)
      case None => LookupFinds(r, |cats|);
      case Some(j) => LookupFinds(r, j);
  }

  // ---------------------------------------------------------------------------
  // Adherence checks (`check_prompt_adherence`)
  // ---------------------------------------------------------------------------

  /** An adherence check as configured: its name, its points and its viewport filter (none: `[]`). */
  datatype AdherenceCheck = AdherenceCheck(name: string, points: real, viewports: seq<string>)

  /** A recorded finding with the viewport it was recorded at. */
  datatype Detail = Detail(finding: Finding, viewport: string)

  function PointsOf(checks: seq<AdherenceCheck>): (xs: seq<real>)
    ensures |xs| == |checks|
    ensures forall i :: 0 <= i < |checks| ==> xs[i] == checks[i].points
  {
    seq(|checks|, i requires 0 <= i < |checks| => checks[i].points)
  }

  /** The points of the checks marked in `mask`, zero elsewhere. */
  function MaskedPoints(checks: seq<AdherenceCheck>, mask: seq<bool>): (xs: seq<real>)
    requires |mask| == |checks|
    ensures |xs| == |checks|
    ensures forall i :: 0 <= i < |checks| ==> xs[i] == (if mask[i] then checks[i].points else 0.0)
  {
    seq(|checks|, i requires 0 <= i < |checks| => if mask[i] then checks[i].points else 0.0)
  }

  /** With non-negative points, the points of any subset of checks stay within the configured total. */
  lemma MaskedWithinTotal(checks: seq<AdherenceCheck>, mask: seq<bool>)
    requires |mask| == |checks|
    requires forall i :: 0 <= i < |checks| ==> checks[i].points >= 0.0
    ensures 0.0 <= Sum(MaskedPoints(checks, mask)) <= Sum(PointsOf(checks))
  {
    SumNonNegative(MaskedPoints(checks, mask));
    SumMonotone(MaskedPoints(checks, mask), PointsOf(checks));
  }

  /** What the adherence loop keeps: the names already paid, the points earned, the details. */
  datatype Ledger = Ledger(paid: set<string>, earned: real, details: seq<Detail>)

  /** One iteration of the adherence loop, given whether the check passed at this viewport. */
  function AdhereStep(l: Ledger, c: AdherenceCheck, passed: bool, viewport: string): Ledger {
    if !C.Applies(c.viewports, viewport) then l
    else
      var status := if passed then Pass else Fail;
      var earnedHere := if passed then c.points else 0.0;
      if earnedHere > 0.0 && c.name !in l.paid then
        Ledger(l.paid + {c.name}, l.earned + earnedHere,
               l.details + [Detail(Finding(AdherenceCategory, c.name, c.points, c.points, status), viewport)])
      else if earnedHere > 0.0 then
        Ledger(l.paid, l.earned, l.details + [Detail(Finding(AdherenceCategory, c.name, 0.0, c.points, Pass), viewport)])
      else
        Ledger(l.paid, l.earned, l.details + [Detail(Finding(AdherenceCategory, c.name, 0.0, c.points, status), viewport)])
  }

  /** The body of the adherence loop for one check, on the loop's variables. */
  method AdhereOne(l: Ledger, c: AdherenceCheck, passed: bool, viewport: string) returns (next: Ledger)
    ensures next == AdhereStep(l, c, passed, viewport)
  {
    next := l;
    if C.Applies(c.viewports, viewport) {
      var status := if passed then Pass else Fail;
      var earnedHere := if passed then c.points else 0.0;
      if earnedHere > 0.0 && c.name !in l.paid {
        next := Ledger(l.paid + {c.name}, l.earned + earnedHere,
                       l.details + [Detail(Finding(AdherenceCategory, c.name, c.points, c.points, status), viewport)]);
      } else if earnedHere > 0.0 {
        next := next.(details := l.details + [Detail(Finding(AdherenceCategory, c.name, 0.0, c.points, Pass), viewport)]);
      } else {
        next := next.(details := l.details + [Detail(Finding(AdherenceCategory, c.name, 0.0, c.points, status), viewport)]);
      }
    }
  }

  /** The adherence loop over all configured checks at one viewport. */
  function AdhereAll(l: Ledger, checks: seq<AdherenceCheck>, verdicts: seq<bool>, viewport: string): Ledger
    requires |verdicts| == |checks|
    decreases |checks|
  {
    if checks == [] then l
    else
      var n := |checks| - 1;
      AdhereStep(AdhereAll(l, checks[..n], verdicts[..n], viewport), checks[n], verdicts[n], viewport)
  }

  /** The loop over the first `k + 1` checks is one more step after the loop over the first `k`. */
  lemma AdhereAllSnoc(l: Ledger, checks: seq<AdherenceCheck>, verdicts: seq<bool>, viewport: string, k: nat)
    requires |verdicts| == |checks| && k < |checks|
    ensures AdhereAll(l, checks[..k + 1], verdicts[..k + 1], viewport)
            == AdhereStep(AdhereAll(l, checks[..k], verdicts[..k], viewport), checks[k], verdicts[k], viewport)
  {
    assert checks[..k + 1][..k] == checks[..k] && verdicts[..k + 1][..k] == verdicts[..k];
  }

  /** Every check the mask credits has its name among the paid ones. */
  ghost predicate Credited(checks: seq<AdherenceCheck>, mask: seq<bool>, paid: set<string>) {
    |mask| == |checks| && forall i :: 0 <= i < |checks| && mask[i] ==> checks[i].name in paid
  }

  /**
   * The adherence loop over every check, from ledger `start`; the mask of
   * paying checks grows with it, so the earned total stays the sum of the
   * points the mask credits.
   */
  method AdhereLoop(cs: seq<AdherenceCheck>, verdicts: seq<bool>, vp: string, start: Ledger, ghost mask0: seq<bool>)
    returns (l: Ledger, ghost mask: seq<bool>)
    requires |verdicts| == |cs| && Credited(cs, mask0, start.paid)
    requires start.earned == Sum(MaskedPoints(cs, mask0))
    ensures l == AdhereAll(start, cs, verdicts, vp)
    ensures Credited(cs, mask, l.paid) && l.earned == Sum(MaskedPoints(cs, mask))
  {
    l, mask := start, mask0;
    for k := 0 to |cs|
      invariant Credited(cs, mask, l.paid)
      invariant l.earned == Sum(MaskedPoints(cs, mask))
      invariant l == AdhereAll(start, cs[..k], verdicts[..k], vp)
    {
      AdhereAllSnoc(start, cs, verdicts, vp, k);
      if Won(cs[k], verdicts[k], vp) && cs[k].name !in l.paid {
        Credit(cs, mask, k, l.paid, l.earned);
        mask := mask[k := true];
      }
      l := AdhereOne(l, cs[k], verdicts[k], vp);
    }
    assert cs[..|cs|] == cs && verdicts[..|verdicts|] == verdicts;
  }

  /** A check counts as won when it applies here, passed and is worth positive points. */
  predicate Won(c: AdherenceCheck, passed: bool, viewport: string) {
    C.Applies(c.viewports, viewport) && passed && c.points > 0.0
  }

  /** Names once paid stay paid, and every check won in this pass ends up paid. */
  lemma {:induction false} AdherePays(l: Ledger, checks: seq<AdherenceCheck>, verdicts: seq<bool>, viewport: string)
    requires |verdicts| == |checks|
    ensures l.paid <= AdhereAll(l, checks, verdicts, viewport).paid
    ensures forall i :: 0 <= i < |checks| && Won(checks[i], verdicts[i], viewport) ==>
              checks[i].name in AdhereAll(l, checks, verdicts, viewport).paid
    decreases |checks|
  {
    if checks != [] {
      var n := |checks| - 1;
      AdherePays(l, checks[..n], verdicts[..n], viewport);
      forall i | 0 <= i < n && Won(checks[i], verdicts[i], viewport)
        ensures checks[i].name in AdhereAll(l, checks, verdicts, viewport).paid
      {
        assert checks[..n][i] == checks[i] && verdicts[..n][i] == verdicts[i];
      }
    }
  }

  /** When every check that could win is already paid, the loop pays nothing and adds no name. */
  lemma {:induction false} AdhereNothingNew(l: Ledger, checks: seq<AdherenceCheck>, verdicts: seq<bool>, viewport: string)
    requires |verdicts| == |checks|
    requires forall i :: 0 <= i < |checks| && Won(checks[i], verdicts[i], viewport) ==> checks[i].name in l.paid
    ensures AdhereAll(l, checks, verdicts, viewport).earned == l.earned
    ensures AdhereAll(l, checks, verdicts, viewport).paid == l.paid
    decreases |checks|
  {
    if checks != [] {
      var n := |checks| - 1;
      forall i | 0 <= i < n && Won(checks[..n][i], verdicts[..n][i], viewport)
        ensures checks[..n][i].name in l.paid
      {
        assert checks[..n][i] == checks[i] && verdicts[..n][i] == verdicts[i];
      }
      AdhereNothingNew(l, checks[..n], verdicts[..n], viewport);
    }
  }

  /** Re-running the same checks with the same verdicts at the same viewport earns nothing more. */
  lemma AdhereRepeatEarnsNothing(l: Ledger, checks: seq<AdherenceCheck>, verdicts: seq<bool>, viewport: string)
    requires |verdicts| == |checks|
    ensures var once := AdhereAll(l, checks, verdicts, viewport);
            AdhereAll(once, checks, verdicts, viewport).earned == once.earned
  {
    var once := AdhereAll(l, checks, verdicts, viewport);
    AdherePays(l, checks, verdicts, viewport);
    AdhereNothingNew(once, checks, verdicts, viewport);
  }

  function DetailEarned(ds: seq<Detail>): (xs: seq<real>)
    ensures |xs| == |ds|
    ensures forall i :: 0 <= i < |ds| ==> xs[i] == ds[i].finding.earned
  {
    seq(|ds|, i requires 0 <= i < |ds| => ds[i].finding.earned)
  }

  /** The recorded details account for exactly the points the loop adds to the adherence total. */
  lemma {:induction false} AdhereDetailsAccount(l: Ledger, checks: seq<AdherenceCheck>, verdicts: seq<bool>, viewport: string)
    requires |verdicts| == |checks|
    ensures var r := AdhereAll(l, checks, verdicts, viewport);
            Sum(DetailEarned(r.details)) - Sum(DetailEarned(l.details)) == r.earned - l.earned
    decreases |checks|
  {
    if checks != [] {
      var n := |checks| - 1;
      var mid := AdhereAll(l, checks[..n], verdicts[..n], viewport);
      AdhereDetailsAccount(l, checks[..n], verdicts[..n], viewport);
      var r := AdhereStep(mid, checks[n], verdicts[n], viewport);
      if r.details != mid.details {
        var d := r.details[|r.details| - 1];
        assert r.details == mid.details + [d];
        assert DetailEarned(r.details) == DetailEarned(mid.details) + [d.finding.earned];
        SumAppend(DetailEarned(mid.details), d.finding.earned);
      }
    }
  }

  // ---------------------------------------------------------------------------
  // The score sheet of one prompt (`current_prompt_scores`)
  // ---------------------------------------------------------------------------

  /** Why a viewport failed to load (`_load_page_at_viewport`). */
  datatype LoadFailure = LoadTimeout | DriverError(message: string)

  /** The check name of the page-load finding. */
  function LoadCheck(why: LoadFailure): string {
    if why.LoadTimeout? then "Page Completeness" else "Driver Operation"
  }

  /** The entry in `page_load_errors`. */
  function LoadError(why: LoadFailure, viewport: string): string {
    match why
      case LoadTimeout => "Timeout at " + viewport
      case DriverError(m) => "WebDriver error at " + viewport + ": " + m
  }

  class PromptScores {
    /** The keys of the viewport plan, in order. */
    const plan: seq<string>
    /** `TECHNICAL_QUALITY_MAX_POINTS_CONFIG` and `PER_VIEWPORT_SCALABLE_CATEGORIES`. */
    const config: map<string, real>
    const scalable: set<string>
    /** The configured adherence checks. */
    const checks: seq<AdherenceCheck>
    /** `current_viewport_name`. */
    var viewport: string
    /** `technical_quality.categories`. */
    var cats: seq<Category>
    /** `technical_quality.max`. */
    var tqMax: real
    /** `prompt_adherence.earned`, `.max` and `.details`. */
    var adhEarned: real
    const adhMax: real
    var adhDetails: seq<Detail>
    /** `page_load_errors`. */
    var loadErrors: seq<string>
    /** `_adherence_checks_passed_this_prompt`: check names already paid. */
    var paid: set<string>
    /** Which configured check paid each name (proof only). */
    ghost var credited: seq<bool>

    ghost predicate Valid()
      reads this
    {
      && UniqueNames(cats)
      && tqMax == Sum(MaximaOf(cats))
      && |credited| == |checks|
      && (forall i :: 0 <= i < |checks| && credited[i] ==> checks[i].name in paid)
      && adhEarned == Sum(MaskedPoints(checks, credited))
      && adhMax == Sum(PointsOf(checks))
    }

    /** A fresh score sheet: the adherence max is the sum of all configured points. */
    constructor (plan: seq<string>, checks: seq<AdherenceCheck>)
      ensures Valid()
      ensures this.plan == plan && this.checks == checks && viewport == "initial"
      ensures config == T.MaxPointsConfig && scalable == T.PerViewportScalable
      ensures cats == [] && tqMax == 0.0
      ensures adhEarned == 0.0 && adhMax == Sum(PointsOf(checks)) && adhDetails == [] && paid == {}
      ensures loadErrors == []
    {
      this.plan := plan;
      this.checks := checks;
      config := T.MaxPointsConfig;
      scalable := T.PerViewportScalable;
      viewport := "initial";
      cats := [];
      tqMax := 0.0;
      adhEarned := 0.0;
      adhMax := Sum(PointsOf(checks));
      adhDetails := [];
      loadErrors := [];
      paid := {};
      var none := seq(|checks|, _ => false);
      SumOfZeros(MaskedPoints(checks, none));
      credited := none;
    }

    /**
     * `_add_finding` for a technical check, as `AddTo` describes it; the
     * technical max moves by exactly the change in the category's max.
     */
    method AddTechnical(f: Finding)
      requires Valid()
      modifies this
      ensures Valid()
      ensures cats == AddTo(old(cats), f, viewport, plan, config, scalable)
      ensures tqMax == old(tqMax) + MaxGrowth(old(cats), f.category, plan, config, scalable)
      ensures viewport == old(viewport) && loadErrors == old(loadErrors)
      ensures adhEarned == old(adhEarned) && adhDetails == old(adhDetails) && paid == old(paid)
      ensures credited == old(credited)
    {
      AddToValid(cats, f, viewport, plan, config, scalable);
      tqMax := tqMax + MaxGrowth(cats, f.category, plan, config, scalable);
      cats := AddTo(cats, f, viewport, plan, config, scalable);
    }

    /** `_load_page_at_viewport`: the viewport becomes current. */
    method EnterViewport(name: string)
      modifies this
      requires Valid()
      ensures Valid()
      ensures viewport == name
      ensures cats == old(cats) && tqMax == old(tqMax)
      ensures adhEarned == old(adhEarned) && adhDetails == old(adhDetails)
      ensures paid == old(paid) && loadErrors == old(loadErrors) && credited == old(credited)
    {
      viewport := name;
    }

    /**
     * A page that does not load at the current viewport: a 0/0 FAIL finding
     * under "Page Load Errors" and an entry in the load-error list. That
     * category is unconfigured, so the technical max does not move.
     */
    method LoadFailed(why: LoadFailure)
      requires Valid() && PageLoadCategory !in config
      modifies this
      ensures Valid()
      ensures tqMax == old(tqMax)
      ensures FiledLast(cats, PageLoadCategory, Detail(Finding(PageLoadCategory, LoadCheck(why), 0.0, 0.0, Fail), viewport))
      ensures loadErrors == old(loadErrors) + [LoadError(why, viewport)]
      ensures viewport == old(viewport) && adhEarned == old(adhEarned) && adhDetails == old(adhDetails)
      ensures paid == old(paid)
    {
      var f := Finding(PageLoadCategory, LoadCheck(why), 0.0, 0.0, Fail);
      AddToRecordsLast(cats, f, viewport, plan, config, scalable);
      AddTechnical(f);
      loadErrors := loadErrors + [LoadError(why, viewport)];
    }

    /**
     * `check_prompt_adherence` at the current viewport, given each check's
     * verdict there: a check pays its points only the first time a check of
     * that name passes with positive points; later passes are recorded at 0.
     */
    method CheckAdherence(verdicts: seq<bool>)
      requires Valid() && |verdicts| == |checks|
      modifies this
      ensures Valid()
      ensures Ledger(paid, adhEarned, adhDetails) ==
              AdhereAll(Ledger(old(paid), old(adhEarned), old(adhDetails)), checks, verdicts, viewport)
      ensures viewport == old(viewport) && cats == old(cats) && tqMax == old(tqMax)
      ensures loadErrors == old(loadErrors)
    {
      var l;
      ghost var mask;
      l, mask := AdhereLoop(checks, verdicts, viewport, Ledger(paid, adhEarned, adhDetails), credited);
      paid, adhEarned, adhDetails, credited := l.paid, l.earned, l.details, mask;
    }

    /**
     * `get_prompt_report_data`: every category's earned is capped at its
     * max, then the report is computed from the capped totals.
     */
    method Report(round2: real -> real) returns (r: PromptReport)
      requires Valid()
      modifies this
      ensures Valid()
      ensures cats == CapAll(old(cats))
      ensures Sum(EarnedOf(cats)) <= tqMax
      ensures r == ReportOf(EarnedOf(cats), tqMax, adhEarned, adhMax, round2)
      ensures viewport == old(viewport) && tqMax == old(tqMax)
      ensures adhEarned == old(adhEarned) && adhDetails == old(adhDetails)
      ensures paid == old(paid) && loadErrors == old(loadErrors) && credited == old(credited)
    {
      var capped := cats;
      for i := 0 to |capped|
        invariant |capped| == |cats|
        invariant forall k :: 0 <= k < i ==> capped[k] == CapAll(cats)[k]
        invariant forall k :: i <= k < |cats| ==> capped[k] == cats[k]
      {
        if capped[i].earned > capped[i].max {
          capped := capped[i := capped[i].(earned := capped[i].max)];
        }
      }
      assert capped == CapAll(cats);
      CapAllTotals(cats);
      cats := capped;
      r := ReportOf(EarnedOf(cats), tqMax, adhEarned, adhMax, round2);
    }
  }

  /** Every category's earned capped at its max; nothing else changes. */
  function CapAll(cats: seq<Category>): (capped: seq<Category>)
    ensures |capped| == |cats|
    ensures forall i :: 0 <= i < |cats| ==> capped[i] == cats[i].(earned := Cap(cats[i].earned, cats[i].max))
  {
    seq(|cats|, i requires 0 <= i < |cats| => cats[i].(earned := Cap(cats[i].earned, cats[i].max)))
  }

  /** Capping keeps names and maxima, and brings the earned total within the max total. */
  lemma CapAllTotals(cats: seq<Category>)
    ensures UniqueNames(cats) ==> UniqueNames(CapAll(cats))
    ensures MaximaOf(CapAll(cats)) == MaximaOf(cats)
    ensures EarnedOf(CapAll(cats)) == Capped(EarnedOf(cats), MaximaOf(cats))
    ensures Sum(EarnedOf(CapAll(cats))) <= Sum(MaximaOf(cats))
  {
    assert EarnedOf(CapAll(cats)) == Capped(EarnedOf(cats), MaximaOf(cats));
    CappedWithin(EarnedOf(cats), MaximaOf(cats));
  }

  /** Crediting a check not credited before adds exactly its points. */
  lemma PayOnce(checks: seq<AdherenceCheck>, mask: seq<bool>, k: nat)
    requires |mask| == |checks| && k < |checks| && !mask[k]
    ensures Sum(MaskedPoints(checks, mask[k := true])) == Sum(MaskedPoints(checks, mask)) + checks[k].points
  {
    assert MaskedPoints(checks, mask[k := true]) == MaskedPoints(checks, mask)[k := checks[k].points];
    SumUpdate(MaskedPoints(checks, mask), k, checks[k].points);
  }

  /** Paying check `k` under its name keeps the ledger of credited checks consistent with the names and the total. */
  lemma Credit(checks: seq<AdherenceCheck>, mask: seq<bool>, k: nat, here: set<string>, earned: real)
    requires |mask| == |checks| && k < |checks| && checks[k].name !in here
    requires forall i :: 0 <= i < |checks| && mask[i] ==> checks[i].name in here
    requires earned == Sum(MaskedPoints(checks, mask))
    ensures forall i :: 0 <= i < |checks| && mask[k := true][i] ==> checks[i].name in here + {checks[k].name}
    ensures earned + checks[k].points == Sum(MaskedPoints(checks, mask[k := true]))
  {
    PayOnce(checks, mask, k);
  }

  /** With non-negative points, the adherence total of a prompt never exceeds its configured max. */
  lemma AdherenceWithinMax(s: PromptScores)
    requires s.Valid()
    requires forall i :: 0 <= i < |s.checks| ==> s.checks[i].points >= 0.0
    ensures 0.0 <= s.adhEarned <= s.adhMax
  {
    MaskedWithinTotal(s.checks, s.credited);
  }

  // ---------------------------------------------------------------------------
  // The prompt report (`get_prompt_report_data`)
  // ---------------------------------------------------------------------------

  function Cap(e: real, m: real): (r: real)
    ensures r <= m && r <= e
    ensures r == e || r == m
  {
    if e > m then m else e
  }

  function Capped(es: seq<real>, ms: seq<real>): (cs: seq<real>)
    requires |es| == |ms|
    ensures |cs| == |es|
    ensures forall i :: 0 <= i < |es| ==> cs[i] == Cap(es[i], ms[i])
  {
    seq(|es|, i requires 0 <= i < |es| => Cap(es[i], ms[i]))
  }

  /** After capping, the earned total is within the max total and within the uncapped total. */
  lemma CappedWithin(es: seq<real>, ms: seq<real>)
    requires |es| == |ms|
    ensures Sum(Capped(es, ms)) <= Sum(ms)
    ensures Sum(Capped(es, ms)) <= Sum(es)
  {
    SumMonotone(Capped(es, ms), ms);
    SumMonotone(Capped(es, ms), es);
  }

  /** A percentage of a max, 0 when the max is not positive. */
  function Percent(earned: real, max: real): (p: real)
    ensures max <= 0.0 ==> p == 0.0
    ensures max > 0.0 ==> p * max == earned * 100.0
    ensures max > 0.0 && 0.0 <= earned <= max ==> 0.0 <= p <= 100.0
  {
    if max > 0.0 then earned / max * 100.0 else 0.0
  }

  /** The weighted overall score, before rounding. */
  function Weighted(tqPercent: real, adhPercent: real): (w: real)
    ensures 0.0 <= tqPercent <= 100.0 && 0.0 <= adhPercent <= 100.0 ==> 0.0 <= w <= 100.0
    ensures tqPercent == adhPercent ==> w == tqPercent
  {
    tqPercent * WeightTechnical + adhPercent * WeightAdherence
  }

  /** The scores part of a prompt's report; `round2` is Python's `round(x, 2)`. */
  datatype PromptReport = PromptReport(tqEarned: real, tqMax: real, tqPercent: real,
                                       adhEarned: real, adhMax: real, adhPercent: real,
                                       rawEarned: real, rawMax: real, weighted: real)

  function ReportOf(categoryEarned: seq<real>, tqMax: real, adhEarned: real, adhMax: real,
                    round2: real -> real): PromptReport
  {
    var tqEarned := Sum(categoryEarned);
    var tqPercent := Percent(tqEarned, tqMax);
    var adhPercent := Percent(adhEarned, adhMax);
    PromptReport(round2(tqEarned), round2(tqMax), round2(tqPercent),
                 round2(adhEarned), round2(adhMax), round2(adhPercent),
                 round2(tqEarned + adhEarned), round2(tqMax + adhMax),
                 round2(Weighted(tqPercent, adhPercent)))
  }

  /**
   * With non-negative category points and an adherence total within its
   * max, the weighted score of the capped report lies in [0, 100] before
   * rounding.
   */
  lemma ReportWithinBounds(es: seq<real>, ms: seq<real>, adhEarned: real, adhMax: real)
    requires |es| == |ms|
    requires forall i :: 0 <= i < |es| ==> es[i] >= 0.0 && ms[i] >= 0.0
    requires 0.0 <= adhEarned <= adhMax
    ensures var tq := Sum(Capped(es, ms));
            0.0 <= tq <= Sum(ms) &&
            0.0 <= Weighted(Percent(tq, Sum(ms)), Percent(adhEarned, adhMax)) <= 100.0
  {
    CappedWithin(es, ms);
    SumNonNegative(Capped(es, ms));
  }

  // ---------------------------------------------------------------------------
  // Which checks run at which viewport (`run_single_prompt_analysis`)
  // ---------------------------------------------------------------------------

  /** The keys of `technical_checks_completed_flags`. */
  datatype Flag =
    | AnyPageChecksDone
    | DesktopPageChecksDone
    | HtmlDone
    | CssDone
    | JsDone
    | ViewportMetaChecked
    | LighthouseDone(key: string)

  /** What happened at one viewport of the plan. */
  datatype Visit =
    | NotLoaded
    | Visited(pageCalls: bool, pageChecks: bool, metaScored: bool, lighthouse: bool)

  /** Some viewport before `i` loaded. */
  predicate LoadedBefore(loaded: seq<bool>, i: int)
    requires i <= |loaded|
  {
    exists j :: 0 <= j < i && loaded[j]
  }

  /** Some viewport before `i` whose lower-cased name is `key` loaded. */
  predicate SeenBefore(names: seq<string>, loaded: seq<bool>, i: int, key: string)
    requires |names| == |loaded| && i <= |loaded|
  {
    exists j :: 0 <= j < i && loaded[j] && Lower(names[j]) == key
  }

  /**
   * What the flags lead to at position `i` of the plan, stated over the
   * viewports before it: the reference `PlanViewports` is proved against.
   */
  function PlannedVisit(names: seq<string>, loaded: seq<bool>, hasLighthouse: bool, i: nat): Visit
    requires |names| == |loaded| && i < |names|
  {
    if !loaded[i] then NotLoaded
    else
      var first := !LoadedBefore(loaded, i);
      Visited(first || (Lower(names[i]) == "desktop" && !SeenBefore(names, loaded, i, "desktop")),
              first, first, hasLighthouse && !SeenBefore(names, loaded, i, Lower(names[i])))
  }

  /** Taking one more viewport into account. */
  lemma BeforeStep(names: seq<string>, loaded: seq<bool>, i: nat)
    requires |names| == |loaded| && i < |loaded|
    ensures LoadedBefore(loaded, i + 1) == (LoadedBefore(loaded, i) || loaded[i])
    ensures forall key :: SeenBefore(names, loaded, i + 1, key)
                          == (SeenBefore(names, loaded, i, key) || (loaded[i] && Lower(names[i]) == key))
  {
  }

  /**
   * One loaded viewport of the loop: which checks run there and which flags
   * are set afterwards. The page-level flags are set together, so one of
   * them stands for all.
   */
  method VisitViewport(key: string, hasLighthouse: bool, flags: set<Flag>) returns (v: Visit, next: set<Flag>)
    requires (HtmlDone in flags) == (AnyPageChecksDone in flags)
    requires (CssDone in flags) == (AnyPageChecksDone in flags)
    requires (JsDone in flags) == (AnyPageChecksDone in flags)
    requires (ViewportMetaChecked in flags) == (AnyPageChecksDone in flags)
    ensures var first := AnyPageChecksDone !in flags;
            v == Visited(first || (key == "desktop" && DesktopPageChecksDone !in flags), first, first,
                         hasLighthouse && LighthouseDone(key) !in flags)
    ensures AnyPageChecksDone in next && HtmlDone in next && CssDone in next && JsDone in next
    ensures ViewportMetaChecked in next
    ensures (DesktopPageChecksDone in next) == (DesktopPageChecksDone in flags || key == "desktop")
    ensures forall k :: LighthouseDone(k) in next <==> LighthouseDone(k) in flags || (hasLighthouse && k == key)
  {
    next := flags;
    var runPageLevel := AnyPageChecksDone !in next;
    if key == "desktop" && DesktopPageChecksDone !in next {
      runPageLevel := true;
      next := next + {DesktopPageChecksDone};
    }
    var ran := false;
    if runPageLevel {
      if HtmlDone !in next {
        ran := true;
        next := next + {HtmlDone};
      }
      if CssDone !in next {
        next := next + {CssDone};
      }
      if JsDone !in next {
        next := next + {JsDone};
      }
      next := next + {AnyPageChecksDone};
    }
    var meta := ViewportMetaChecked !in next;
    next := next + {ViewportMetaChecked};
    var lighthouse := false;
    if hasLighthouse && LighthouseDone(key) !in next {
      lighthouse := true;
      next := next + {LighthouseDone(key)};
    }
    v := Visited(runPageLevel, ran, meta, lighthouse);
  }

  /** The plan, viewport by viewport, in terms of what loaded before. */
  lemma PlannedMeans(names: seq<string>, loaded: seq<bool>, hasLighthouse: bool, visits: seq<Visit>)
    requires |loaded| == |names| && |visits| == |names|
    requires forall k :: 0 <= k < |names| ==> visits[k] == PlannedVisit(names, loaded, hasLighthouse, k)
    ensures |visits| == |names|
    ensures forall i :: 0 <= i < |names| ==> (visits[i].Visited? <==> loaded[i])
    ensures forall i :: 0 <= i < |names| && loaded[i] ==>
      && (visits[i].pageChecks <==> !LoadedBefore(loaded, i))
      && (visits[i].metaScored <==> !LoadedBefore(loaded, i))
      && (visits[i].pageCalls <==>
            !LoadedBefore(loaded, i) || (Lower(names[i]) == "desktop" && !SeenBefore(names, loaded, i, "desktop")))
      && (visits[i].lighthouse <==> hasLighthouse && !SeenBefore(names, loaded, i, Lower(names[i])))
  {
  }

  /**
   * The flags of `run_single_prompt_analysis` over the viewport plan, given
   * which viewports load and whether the Lighthouse CLI exists. The
   * page-level checks are called at the first viewport that loads and again
   * at the first "desktop" one, but each returns at once when its own flag is
   * set, so they run exactly once; the viewport meta tag is scored once;
   * Lighthouse runs once per lower-cased viewport name.
   */
  method PlanViewports(names: seq<string>, loaded: seq<bool>, hasLighthouse: bool) returns (visits: seq<Visit>)
    requires |loaded| == |names|
    ensures |visits| == |names|
    ensures forall i :: 0 <= i < |names| ==> (visits[i].Visited? <==> loaded[i])
    ensures forall i :: 0 <= i < |names| && loaded[i] ==>
      && (visits[i].pageChecks <==> !LoadedBefore(loaded, i))
      && (visits[i].metaScored <==> !LoadedBefore(loaded, i))
      && (visits[i].pageCalls <==>
            !LoadedBefore(loaded, i) || (Lower(names[i]) == "desktop" && !SeenBefore(names, loaded, i, "desktop")))
      && (visits[i].lighthouse <==> hasLighthouse && !SeenBefore(names, loaded, i, Lower(names[i])))
  {
    var flags: set<Flag> := {};
    visits := [];
    for i := 0 to |names|
      invariant |visits| == i
      invariant forall k :: 0 <= k < i ==> visits[k] == PlannedVisit(names, loaded, hasLighthouse, k)
      invariant (AnyPageChecksDone in flags) == LoadedBefore(loaded, i)
      invariant (HtmlDone in flags) == LoadedBefore(loaded, i)
      invariant (CssDone in flags) == LoadedBefore(loaded, i)
      invariant (JsDone in flags) == LoadedBefore(loaded, i)
      invariant (ViewportMetaChecked in flags) == LoadedBefore(loaded, i)
      invariant (DesktopPageChecksDone in flags) == SeenBefore(names, loaded, i, "desktop")
      invariant forall key :: LighthouseDone(key) in flags <==> hasLighthouse && SeenBefore(names, loaded, i, key)
    {
      BeforeStep(names, loaded, i);
      if !loaded[i] {
        visits := visits + [NotLoaded];
        continue;
      }
      var v;
      v, flags := VisitViewport(Lower(names[i]), hasLighthouse, flags);
      visits := visits + [v];
    }
    PlannedMeans(names, loaded, hasLighthouse, visits);
  }

  /** Once a viewport has loaded, no later viewport is the first to load. */
  lemma FirstLoadUnique(loaded: seq<bool>, i: nat, j: nat)
    requires i < j < |loaded| && loaded[i]
    ensures LoadedBefore(loaded, j)
  {
    assert 0 <= i < j && loaded[i];
  }

  /** Two loaded viewports whose names agree up to case do not both run Lighthouse. */
  lemma LighthouseOncePerName(names: seq<string>, loaded: seq<bool>, i: nat, j: nat)
    requires |names| == |loaded| && i < j < |names| && loaded[i] && loaded[j]
    requires Lower(names[i]) == Lower(names[j])
    ensures SeenBefore(names, loaded, j, Lower(names[j]))
  {
    assert 0 <= i < j && loaded[i] && Lower(names[i]) == Lower(names[j]);
  }

  // ---------------------------------------------------------------------------
  // The model-level summary (`main`)
  // ---------------------------------------------------------------------------

  /** What a prompt's worker returns; failed prompts carry zero scores. */
  datatype PromptResult = PromptResult(status: string, tqEarned: real, tqMax: real,
                                       adhEarned: real, adhMax: real, weighted: real)

  /** The running totals of the aggregation loop. */
  datatype Totals = Totals(scored: nat, tqEarned: real, tqMax: real, adhEarned: real, adhMax: real, weightedSum: real)

  function Positive(x: real): real { if x > 0.0 then x else 0.0 }

  /** One result added to the totals: only status "SUCCESS" counts, and a max only when positive. */
  function Include(t: Totals, r: PromptResult): Totals {
    if r.status == "SUCCESS" then
      Totals(t.scored + 1, t.tqEarned + r.tqEarned, t.tqMax + Positive(r.tqMax),
             t.adhEarned + r.adhEarned, t.adhMax + Positive(r.adhMax), t.weightedSum + r.weighted)
    else t
  }

  function TotalsOf(rs: seq<PromptResult>): Totals
    decreases |rs|
  {
    if rs == [] then Totals(0, 0.0, 0.0, 0.0, 0.0, 0.0)
    else Include(TotalsOf(rs[..|rs| - 1]), rs[|rs| - 1])
  }

  /** The totals of two batches of results are the sums of their totals, field by field. */
  lemma {:induction false} TotalsSplit(xs: seq<PromptResult>, ys: seq<PromptResult>)
    ensures var t, u, v := TotalsOf(xs + ys), TotalsOf(xs), TotalsOf(ys);
            && t.scored == u.scored + v.scored
            && t.tqEarned == u.tqEarned + v.tqEarned && t.tqMax == u.tqMax + v.tqMax
            && t.adhEarned == u.adhEarned + v.adhEarned && t.adhMax == u.adhMax + v.adhMax
            && t.weightedSum == u.weightedSum + v.weightedSum
    decreases |ys|
  {
    if ys == [] {
      assert xs + ys == xs;
    } else {
      var n := |ys| - 1;
      TotalsSplit(xs, ys[..n]);
      assert (xs + ys)[..|xs + ys| - 1] == xs + ys[..n];
    }
  }

  /** Results arrive in completion order; the totals do not depend on it. */
  lemma TotalsOrderFree(xs: seq<PromptResult>, ys: seq<PromptResult>)
    ensures TotalsOf(xs + ys) == TotalsOf(ys + xs)
  {
    TotalsSplit(xs, ys);
    TotalsSplit(ys, xs);
  }

  /** A result that is not "SUCCESS" leaves the totals as they were. */
  lemma FailureIgnored(rs: seq<PromptResult>, r: PromptResult)
    requires r.status != "SUCCESS"
    ensures TotalsOf(rs + [r]) == TotalsOf(rs)
  {
    assert (rs + [r])[..|rs|] == rs;
  }

  predicate ScoresWithin(r: PromptResult) {
    0.0 <= r.tqEarned <= r.tqMax && 0.0 <= r.adhEarned <= r.adhMax
  }

  /** When every successful prompt earned within its maxima, so do the totals. */
  lemma {:induction false} TotalsWithin(rs: seq<PromptResult>)
    requires forall i :: 0 <= i < |rs| && rs[i].status == "SUCCESS" ==> ScoresWithin(rs[i])
    ensures var t := TotalsOf(rs);
            0.0 <= t.tqEarned <= t.tqMax && 0.0 <= t.adhEarned <= t.adhMax
    decreases |rs|
  {
    if rs != [] {
      var n := |rs| - 1;
      forall i | 0 <= i < n && rs[..n][i].status == "SUCCESS" ensures ScoresWithin(rs[..n][i]) {
        assert rs[..n][i] == rs[i];
      }
      TotalsWithin(rs[..n]);
    }
  }

  /** The aggregate scores of a model's run. */
  datatype Summary = Summary(analyzed: nat, tqEarned: real, tqMax: real, adhEarned: real, adhMax: real,
                             average: real, overall: real)

  /**
   * The overall score applies the 0.3/0.7 weighting to the summed totals;
   * the average of the per-prompt scores is reported beside it.
   */
  function Finish(t: Totals, round2: real -> real): (s: Summary)
    ensures s.analyzed == t.scored
    ensures t.scored == 0 ==> s.average == 0.0
  {
    Summary(t.scored, t.tqEarned, t.tqMax, t.adhEarned, t.adhMax,
            if t.scored > 0 then round2(t.weightedSum / t.scored as real) else 0.0,
            round2(Weighted(Percent(t.tqEarned, t.tqMax), Percent(t.adhEarned, t.adhMax))))
  }

  /** The aggregation loop of `main`. */
  method Summarize(rs: seq<PromptResult>, round2: real -> real) returns (s: Summary)
    ensures s == Finish(TotalsOf(rs), round2)
  {
    var scored, tqEarned, tqMax, adhEarned, adhMax, weightedSum := 0, 0.0, 0.0, 0.0, 0.0, 0.0;
    for i := 0 to |rs|
      invariant var t := TotalsOf(rs[..i]);
                && scored == t.scored && tqEarned == t.tqEarned && tqMax == t.tqMax
                && adhEarned == t.adhEarned && adhMax == t.adhMax && weightedSum == t.weightedSum
    {
      assert rs[..i + 1][..i] == rs[..i];
      var r := rs[i];
      if r.status == "SUCCESS" {
        scored := scored + 1;
        tqEarned := tqEarned + r.tqEarned;
        if r.tqMax > 0.0 {
          tqMax := tqMax + r.tqMax;
        }
        adhEarned := adhEarned + r.adhEarned;
        if r.adhMax > 0.0 {
          adhMax := adhMax + r.adhMax;
        }
        weightedSum := weightedSum + r.weighted;
      }
    }
    assert rs[..|rs|] == rs;
    var average := if scored > 0 then round2(weightedSum / scored as real) else 0.0;
    var overall := round2(Weighted(Percent(tqEarned, tqMax), Percent(adhEarned, adhMax)));
    s := Summary(scored, tqEarned, tqMax, adhEarned, adhMax, average, overall);
  }

  /** When every successful prompt earned within its maxima, the overall score lies in [0, 100] before rounding. */
  lemma OverallWithinBounds(rs: seq<PromptResult>)
    requires forall i :: 0 <= i < |rs| && rs[i].status == "SUCCESS" ==> ScoresWithin(rs[i])
    ensures var t := TotalsOf(rs);
            0.0 <= Weighted(Percent(t.tqEarned, t.tqMax), Percent(t.adhEarned, t.adhMax)) <= 100.0
  {
    TotalsWithin(rs);
  }
}
