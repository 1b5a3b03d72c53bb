/**
 * The second analyzer's score sheet (v2/main.py): `_add_finding`, which adds
 * every finding's points to both its category's earned and its max; the
 * prompt-adherence pass, run once per viewport; and `generate_report`, which
 * totals the technical categories against a fixed maximum and reports an
 * unweighted percentage.
 */
module ScoringV2 {
  import opened Findings
  import opened Wrappers
  import S = ScoringV4
  import C = ChecksV4
  import K = ChecksV2

  /** A configured number of points: a number, or any other value, which `_add_finding` reads as 0.0. */
  datatype Points = Number(v: real) | NotNumber

  function AsReal(p: Points): real {
    if p.Number? then p.v else 0.0
  }

  /** `TECHNICAL_QUALITY_MAX_POINTS`, in its order. */
  const TechnicalMaxPoints: seq<(string, real)> := [
    ("Accessibility (Axe-core)", 20.0),
    ("Performance (Lighthouse)", 20.0),
    ("Accessibility (Lighthouse)", 10.0),
    ("Best Practices (Lighthouse)", 5.0),
    ("SEO (Lighthouse)", 5.0),
    ("Rendered Color & Contrast", 15.0),
    ("HTML Structure & Semantics", 10.0),
    ("CSS Quality & Responsiveness", 10.0),
    ("JavaScript Health", 5.0),
    ("Responsiveness (No Horizontal Scroll)", 5.0)
  ]

  function Keys(kv: seq<(string, real)>): (ks: seq<string>)
    ensures |ks| == |kv|
    ensures forall i :: 0 <= i < |kv| ==> ks[i] == kv[i].0
  {
    seq(|kv|, i requires 0 <= i < |kv| => kv[i].0)
  }

  function Values(kv: seq<(string, real)>): (vs: seq<real>)
    ensures |vs| == |kv|
    ensures forall i :: 0 <= i < |kv| ==> vs[i] == kv[i].1
  {
    seq(|kv|, i requires 0 <= i < |kv| => kv[i].1)
  }

  /** `TOTAL_TECHNICAL_QUALITY_MAX_POINTS`. */
  const TotalTechnicalMax: real := Sum(Values(TechnicalMaxPoints))

  /** The fixed technical maximum is 105 points. */
  lemma TechnicalMaxIs105()
    ensures TotalTechnicalMax == 105.0
  {
    var vs := Values(TechnicalMaxPoints);
    assert vs == [20.0, 20.0, 10.0, 5.0, 5.0, 15.0, 10.0, 10.0, 5.0, 5.0];
    SumOfTechnicalValues(vs);
  }

  lemma SumOfTechnicalValues(vs: seq<real>)
    requires vs == [20.0, 20.0, 10.0, 5.0, 5.0, 15.0, 10.0, 10.0, 5.0, 5.0]
    ensures Sum(vs) == 105.0
  {
    assert vs[..0] == [];
    SumPrefix(vs, 0);
    SumPrefix(vs, 1);
    SumPrefix(vs, 2);
    SumPrefix(vs, 3);
    SumPrefix(vs, 4);
    SumPrefix(vs, 5);
    SumPrefix(vs, 6);
    SumPrefix(vs, 7);
    SumPrefix(vs, 8);
    SumPrefix(vs, 9);
    assert vs[..10] == vs;
  }

  lemma SumPrefix(xs: seq<real>, k: nat)
    requires k < |xs|
    ensures Sum(xs[..k + 1]) == Sum(xs[..k]) + xs[k]
  {
    assert xs[..k + 1][..k] == xs[..k];
  }

  predicate IsTechnical(name: string) {
    name in Keys(TechnicalMaxPoints)
  }

  /** The category that collects adherence findings. */
  const Adherence: string := "Prompt Adherence"

  // ---------------------------------------------------------------------------
  // `_add_finding`
  // ---------------------------------------------------------------------------

  function DetailMax(ds: seq<S.Detail>): (xs: seq<real>)
    ensures |xs| == |ds|
    ensures forall i :: 0 <= i < |ds| ==> xs[i] == ds[i].finding.max
  {
    seq(|ds|, i requires 0 <= i < |ds| => ds[i].finding.max)
  }

  /** Names are unique, and every category's earned and max are the sums over its recorded findings. */
  ghost predicate Tallied(cats: seq<S.Category>) {
    && S.UniqueNames(cats)
    && forall i :: 0 <= i < |cats| ==>
         cats[i].earned == Sum(S.DetailEarned(cats[i].details)) && cats[i].max == Sum(DetailMax(cats[i].details))
  }

  /**
   * `_add_finding`: an absent category is created at 0/0; the finding's
   * points are added to the category's earned and to its max, and the
   * finding is recorded with the current viewport.
   */
  function Record(cats: seq<S.Category>, f: Finding, viewport: string): seq<S.Category> {
    match S.Lookup(cats, f.category)
      case None =>
        cats + [S.Category(f.category, 0.0 + f.earned, 0.0 + f.max, [S.Detail(f, viewport)])]
      case Some(j) =>
        var e := cats[j];
        cats[j := S.Category(e.name, e.earned + f.earned, e.max + f.max, e.details + [S.Detail(f, viewport)])]
  }

  /** `Record` applied to each finding in turn. */
  function RecordAll(cats: seq<S.Category>, fs: seq<Finding>, viewport: string): seq<S.Category>
    decreases |fs|
  {
    if fs == [] then cats
    else Record(RecordAll(cats, fs[..|fs| - 1], viewport), fs[|fs| - 1], viewport)
  }

  lemma DetailsAppend(ds: seq<S.Detail>, d: S.Detail)
    ensures Sum(S.DetailEarned(ds + [d])) == Sum(S.DetailEarned(ds)) + d.finding.earned
    ensures Sum(DetailMax(ds + [d])) == Sum(DetailMax(ds)) + d.finding.max
  {
    assert S.DetailEarned(ds + [d]) == S.DetailEarned(ds) + [d.finding.earned];
    assert DetailMax(ds + [d]) == DetailMax(ds) + [d.finding.max];
    SumAppend(S.DetailEarned(ds), d.finding.earned);
    SumAppend(DetailMax(ds), d.finding.max);
  }

  /** A finding of a new category appends a category holding just that finding. */
  lemma RecordNew(cats: seq<S.Category>, f: Finding, viewport: string)
    requires Tallied(cats) && S.Lookup(cats, f.category).None?
    ensures Tallied(Record(cats, f, viewport))
    ensures Sum(S.EarnedOf(Record(cats, f, viewport))) == Sum(S.EarnedOf(cats)) + f.earned
    ensures Sum(S.MaximaOf(Record(cats, f, viewport))) == Sum(S.MaximaOf(cats)) + f.max
  {
    var d := S.Detail(f, viewport);
    var e := S.Category(f.category, 0.0 + f.earned, 0.0 + f.max, [d]);
    assert Record(cats, f, viewport) == cats + [e];
    DetailsAppend([], d);
    assert [] + [d] == [d];
    S.AppendNew(cats, e);
    AppendTallied(cats, e);
    EarnedAppend(cats, e);
  }

  /** Appending a tallied category under a new name keeps the list tallied. */
  lemma AppendTallied(cats: seq<S.Category>, e: S.Category)
    requires Tallied(cats) && S.UniqueNames(cats + [e])
    requires e.earned == Sum(S.DetailEarned(e.details)) && e.max == Sum(DetailMax(e.details))
    ensures Tallied(cats + [e])
  {
    var r := cats + [e];
    forall i | 0 <= i < |r|
      ensures r[i].earned == Sum(S.DetailEarned(r[i].details)) && r[i].max == Sum(DetailMax(r[i].details))
    {
      if i < |cats| {
        assert r[i] == cats[i];
      }
    }
  }

  lemma EarnedAppend(cats: seq<S.Category>, e: S.Category)
    ensures Sum(S.EarnedOf(cats + [e])) == Sum(S.EarnedOf(cats)) + e.earned
  {
    assert S.EarnedOf(cats + [e]) == S.EarnedOf(cats) + [e.earned];
    SumAppend(S.EarnedOf(cats), e.earned);
  }

  /** Replacing a category by a tallied one of the same name keeps the list tallied. */
  lemma ReplaceTallied(cats: seq<S.Category>, j: nat, e: S.Category)
    requires Tallied(cats) && j < |cats| && e.name == cats[j].name
    requires e.earned == Sum(S.DetailEarned(e.details)) && e.max == Sum(DetailMax(e.details))
    ensures Tallied(cats[j := e])
  {
    S.ReplaceSame(cats, j, e);
    var r := cats[j := e];
    forall i | 0 <= i < |r|
      ensures r[i].earned == Sum(S.DetailEarned(r[i].details)) && r[i].max == Sum(DetailMax(r[i].details))
    {
      if i != j {
        assert r[i] == cats[i];
      }
    }
  }

  /** A finding of an existing category adds to that category alone. */
  lemma RecordExisting(cats: seq<S.Category>, f: Finding, viewport: string, j: nat)
    requires Tallied(cats) && S.Lookup(cats, f.category) == Some(j)
    ensures Tallied(Record(cats, f, viewport))
    ensures Sum(S.EarnedOf(Record(cats, f, viewport))) == Sum(S.EarnedOf(cats)) + f.earned
    ensures Sum(S.MaximaOf(Record(cats, f, viewport))) == Sum(S.MaximaOf(cats)) + f.max
  {
    var d := S.Detail(f, viewport);
    var e := cats[j];
    var e' := S.Category(e.name, e.earned + f.earned, e.max + f.max, e.details + [d]);
    assert Record(cats, f, viewport) == cats[j := e'];
    DetailsAppend(e.details, d);
    ReplaceTallied(cats, j, e');
    ReplaceSums(cats, j, e');
  }

  /** Replacing entry `j` moves each total by that entry's change. */
  lemma ReplaceSums(cats: seq<S.Category>, j: nat, e: S.Category)
    requires j < |cats|
    ensures Sum(S.EarnedOf(cats[j := e])) == Sum(S.EarnedOf(cats)) - cats[j].earned + e.earned
    ensures Sum(S.MaximaOf(cats[j := e])) == Sum(S.MaximaOf(cats)) - cats[j].max + e.max
  {
    S.EntryUpdate(cats, j, e);
    SumUpdate(S.EarnedOf(cats), j, e.earned);
    SumUpdate(S.MaximaOf(cats), j, e.max);
  }

  /**
   * Recording a finding keeps every category's earned and max equal to the
   * sums over its findings, and raises the sum of all earned points by the
   * finding's earned points and the sum of all maxima by its max.
   */
  lemma RecordTallied(cats: seq<S.Category>, f: Finding, viewport: string)
    requires Tallied(cats)
    ensures Tallied(Record(cats, f, viewport))
    ensures Sum(S.EarnedOf(Record(cats, f, viewport))) == Sum(S.EarnedOf(cats)) + f.earned
    ensures Sum(S.MaximaOf(Record(cats, f, viewport))) == Sum(S.MaximaOf(cats)) + f.max
  {
    match S.Lookup(cats, f.category)
      case None => RecordNew(cats, f, viewport);
      case Some(j) => RecordExisting(cats, f, viewport, j);
  }

  /** What `RecordTallied` says of one finding, for a list of them. */
  lemma {:induction false} RecordAllTallied(cats: seq<S.Category>, fs: seq<Finding>, viewport: string)
    requires Tallied(cats)
    ensures Tallied(RecordAll(cats, fs, viewport))
    ensures Sum(S.EarnedOf(RecordAll(cats, fs, viewport))) == Sum(S.EarnedOf(cats)) + Sum(Earned(fs))
    ensures Sum(S.MaximaOf(RecordAll(cats, fs, viewport))) == Sum(S.MaximaOf(cats)) + Sum(Maxima(fs))
    decreases |fs|
  {
    if fs != [] {
      var n := |fs| - 1;
      RecordAllTallied(cats, fs[..n], viewport);
      RecordTallied(RecordAll(cats, fs[..n], viewport), fs[n], viewport);
      assert Earned(fs)[..n] == Earned(fs[..n]);
      assert Maxima(fs)[..n] == Maxima(fs[..n]);
    }
  }

  lemma RecordAllSnoc(cats: seq<S.Category>, fs: seq<Finding>, f: Finding, viewport: string)
    ensures RecordAll(cats, fs + [f], viewport) == Record(RecordAll(cats, fs, viewport), f, viewport)
  {
    assert (fs + [f])[..|fs|] == fs;
  }

  // ---------------------------------------------------------------------------
  // `check_prompt_adherence`
  // ---------------------------------------------------------------------------

  /**
   * The findings of the checks that apply at `viewport`, in order: each
   * check scores all of its points or none, by the verdict of its
   * `_check_*` (an unknown type or an exception fails).
   */
  function RoundFindings(checks: seq<S.AdherenceCheck>, verdicts: seq<bool>, viewport: string): seq<Finding>
    requires |verdicts| == |checks|
    decreases |checks|
  {
    if checks == [] then []
    else
      var n := |checks| - 1;
      RoundFindings(checks[..n], verdicts[..n], viewport) +
      (if C.Applies(checks[n].viewports, viewport) then [K.Scored(Adherence, checks[n].name, checks[n].points, verdicts[n])] else [])
  }

  /** One adherence pass: without configured checks, a single 0/0 INFO finding. */
  function AdherenceFindings(checks: seq<S.AdherenceCheck>, verdicts: seq<bool>, viewport: string): seq<Finding>
    requires |verdicts| == |checks|
  {
    if checks == [] then [Finding(Adherence, "Configuration", 0.0, 0.0, Info)]
    else RoundFindings(checks, verdicts, viewport)
  }

  /** One pass earns between zero and the configured total, and records the configured points of the checks it runs. */
  lemma {:induction false} RoundWithinMax(checks: seq<S.AdherenceCheck>, verdicts: seq<bool>, viewport: string)
    requires |verdicts| == |checks|
    requires forall i :: 0 <= i < |checks| ==> checks[i].points >= 0.0
    ensures 0.0 <= Sum(Earned(RoundFindings(checks, verdicts, viewport))) <= Sum(Maxima(RoundFindings(checks, verdicts, viewport)))
    ensures Sum(Maxima(RoundFindings(checks, verdicts, viewport))) <= Sum(S.PointsOf(checks))
    decreases |checks|
  {
    if checks != [] {
      var n := |checks| - 1;
      var prev := RoundFindings(checks[..n], verdicts[..n], viewport);
      RoundWithinMax(checks[..n], verdicts[..n], viewport);
      assert S.PointsOf(checks)[..n] == S.PointsOf(checks[..n]);
      if C.Applies(checks[n].viewports, viewport) {
        var f := K.Scored(Adherence, checks[n].name, checks[n].points, verdicts[n]);
        assert Earned(prev + [f]) == Earned(prev) + [f.earned];
        assert Maxima(prev + [f]) == Maxima(prev) + [f.max];
        SumAppend(Earned(prev), f.earned);
        SumAppend(Maxima(prev), f.max);
      } else {
        assert prev + [] == prev;
      }
    }
  }

  /**
   * A check worth 10 points with no viewport filter, passing at both
   * viewports, earns 20 points against an adherence maximum of 10.
   */
  lemma AdherencePaidPerViewport()
    ensures var checks := [S.AdherenceCheck("Has button", 10.0, [])];
            var fs := AdherenceFindings(checks, [true], "desktop") + AdherenceFindings(checks, [true], "mobile");
            Sum(Earned(fs)) == 20.0 && Sum(S.PointsOf(checks)) == 10.0
  {
    var checks := [S.AdherenceCheck("Has button", 10.0, [])];
    var f := K.Scored(Adherence, "Has button", 10.0, true);
    assert checks[..0] == [];
    assert AdherenceFindings(checks, [true], "desktop") == [f];
    assert AdherenceFindings(checks, [true], "mobile") == [f];
    assert Earned([f] + [f]) == [10.0] + [10.0];
    SumCons(10.0, [10.0]);
    SumCons(10.0, []);
    assert S.PointsOf(checks) == [10.0] + [];
  }

  // ---------------------------------------------------------------------------
  // `generate_report`
  // ---------------------------------------------------------------------------

  /** The adherence category is not one of the technical ones. */
  lemma AdherenceNotTechnical()
    ensures !IsTechnical(Adherence)
  {
    assert forall k :: 0 <= k < |TechnicalMaxPoints| ==> TechnicalMaxPoints[k].0 != Adherence;
  }

  /** The earned points of the technical categories, summed in category order. */
  function TechnicalEarned(cats: seq<S.Category>): real
    decreases |cats|
  {
    if cats == [] then 0.0
    else
      var n := |cats| - 1;
      TechnicalEarned(cats[..n]) + (if IsTechnical(cats[n].name) then cats[n].earned else 0.0)
  }

  /** The earned points of the "Prompt Adherence" categories. */
  function AdherenceEarned(cats: seq<S.Category>): real
    decreases |cats|
  {
    if cats == [] then 0.0
    else
      var n := |cats| - 1;
      AdherenceEarned(cats[..n]) + (if cats[n].name == Adherence then cats[n].earned else 0.0)
  }

  /** With unique names, the adherence total is the earned of the one adherence category, if there is one. */
  lemma {:induction false} AdherenceEarnedIsCategory(cats: seq<S.Category>)
    requires S.UniqueNames(cats)
    ensures AdherenceEarned(cats) == match S.Lookup(cats, Adherence) case Some(j) => cats[j].earned case None => 0.0
    decreases |cats|
  {
    if cats != [] {
      var n := |cats| - 1;
      AdherenceEarnedIsCategory(cats[..n]);
      if cats[n].name == Adherence {
        assert S.Lookup(cats[..n], Adherence).None?;
        S.LookupFinds(cats, n);
      } else {
        match S.Lookup(cats[..n], Adherence)
          case Some(j) => S.LookupFinds(cats, j);
          case None => {}
      }
    }
  }

  /** The totals of `generate_report`. */
  datatype Report = Report(tqEarned: real, tqMax: real, adhEarned: real, adhMax: real,
                           overallEarned: real, overallMax: real, percent: real)

  /**
   * Technical and adherence earned over the fixed technical maximum and the
   * configured adherence maximum; the percentage is `round2` of the
   * unweighted share, and stays 0 when the maximum is 0.
   */
  function ReportOf(cats: seq<S.Category>, adhMax: real, round2: real -> real): Report {
    var tq := TechnicalEarned(cats);
    var adh := AdherenceEarned(cats);
    var max := TotalTechnicalMax + adhMax;
    Report(tq, TotalTechnicalMax, adh, adhMax, tq + adh, max, if max > 0.0 then round2(S.Percent(tq + adh, max)) else 0.0)
  }

  /**
   * The overall maximum is 105 plus the adherence maximum, and before
   * rounding the percentage is the overall earned share, between 0 and 100
   * whenever the earned points lie between 0 and the maximum.
   */
  lemma ReportShares(cats: seq<S.Category>, adhMax: real)
    requires adhMax >= 0.0
    ensures var r := ReportOf(cats, adhMax, x => x);
            && r.overallMax == 105.0 + adhMax
            && r.overallEarned == r.tqEarned + r.adhEarned
            && r.percent * r.overallMax == r.overallEarned * 100.0
            && (0.0 <= r.overallEarned <= r.overallMax ==> 0.0 <= r.percent <= 100.0)
  {
    TechnicalMaxIs105();
  }

  /**
   * Contrast at full marks at desktop and at mobile: the category earns 30
   * points, twice its 15-point share of the fixed 105.
   */
  lemma PerViewportCategoryDoubles(round2: real -> real)
    ensures var d := Finding("Rendered Color & Contrast", "Contrast Check Result", 15.0, 15.0, Pass);
            var cats := [S.Category("Rendered Color & Contrast", 30.0, 30.0, [S.Detail(d, "desktop"), S.Detail(d, "mobile")])];
            && Tallied(cats)
            && ReportOf(cats, 0.0, round2).tqEarned == 30.0
            && TechnicalMaxPoints[5] == ("Rendered Color & Contrast", 15.0)
  {
    var d := Finding("Rendered Color & Contrast", "Contrast Check Result", 15.0, 15.0, Pass);
    var ds := [S.Detail(d, "desktop"), S.Detail(d, "mobile")];
    var cats := [S.Category("Rendered Color & Contrast", 30.0, 30.0, ds)];
    assert Keys(TechnicalMaxPoints)[5] == "Rendered Color & Contrast";
    assert cats[..0] == [];
    assert S.DetailEarned(ds) == [15.0] + [15.0];
    assert DetailMax(ds) == [15.0] + [15.0];
    SumCons(15.0, [15.0]);
    SumCons(15.0, []);
  }

  // ---------------------------------------------------------------------------
  // The score sheet
  // ---------------------------------------------------------------------------

  class Scores {
    /** The configured adherence checks and the sum of their points. */
    const checks: seq<S.AdherenceCheck>
    const adhMax: real
    /** `current_viewport_name`. */
    var viewport: string
    /** `self.scores`, in insertion order. */
    var cats: seq<S.Category>

    ghost predicate Valid()
      reads this
    {
      Tallied(cats) && adhMax == Sum(S.PointsOf(checks))
    }

    constructor (checks: seq<S.AdherenceCheck>)
      ensures Valid()
      ensures this.checks == checks && viewport == "initial" && cats == []
    {
      this.checks := checks;
      adhMax := Sum(S.PointsOf(checks));
      viewport := "initial";
      cats := [];
    }

    /** `_load_page_at_viewport`: the viewport becomes current. */
    method EnterViewport(name: string)
      requires Valid()
      modifies this
      ensures Valid()
      ensures viewport == name && cats == old(cats)
    {
      viewport := name;
    }

    /** `_add_finding`, with points that are not numbers read as 0.0. */
    method AddFinding(category: string, check: string, earned: Points, max: Points, status: Status)
      requires Valid()
      modifies this
      ensures Valid()
      ensures viewport == old(viewport)
      ensures cats == Record(old(cats), Finding(category, check, AsReal(earned), AsReal(max), status), viewport)
    {
      var f := Finding(category, check, AsReal(earned), AsReal(max), status);
      RecordTallied(cats, f, viewport);
      cats := Record(cats, f, viewport);
    }

    /** `check_prompt_adherence` at the current viewport, with each check's verdict given. */
    method CheckAdherence(verdicts: seq<bool>)
      requires Valid() && |verdicts| == |checks|
      modifies this
      ensures Valid()
      ensures viewport == old(viewport)
      ensures cats == RecordAll(old(cats), AdherenceFindings(checks, verdicts, viewport), viewport)
    {
      if checks == [] {
        var info := Finding(Adherence, "Configuration", 0.0, 0.0, Info);
        RecordTallied(cats, info, viewport);
        RecordAllSnoc(cats, [], info, viewport);
        cats := Record(cats, info, viewport);
        return;
      }
      var c := cats;
      for k := 0 to |checks|
        modifies {}
        invariant Tallied(c)
        invariant c == RecordAll(cats, RoundFindings(checks[..k], verdicts[..k], viewport), viewport)
      {
        ghost var before := RoundFindings(checks[..k], verdicts[..k], viewport);
        assert checks[..k + 1][..k] == checks[..k];
        assert verdicts[..k + 1][..k] == verdicts[..k];
        if C.Applies(checks[k].viewports, viewport) {
          var f := K.Scored(Adherence, checks[k].name, checks[k].points, verdicts[k]);
          RecordTallied(c, f, viewport);
          RecordAllSnoc(cats, before, f, viewport);
          c := Record(c, f, viewport);
        } else {
          assert before + [] == before;
        }
      }
      assert checks[..|checks|] == checks;
      assert verdicts[..|verdicts|] == verdicts;
      cats := c;
    }

    /** `generate_report`: the loop over the categories, then the totals. */
    method GenerateReport(round2: real -> real) returns (r: Report)
      ensures r == ReportOf(cats, adhMax, round2)
    {
      var tq := 0.0;
      var adh := 0.0;
      for i := 0 to |cats|
        invariant tq == TechnicalEarned(cats[..i])
        invariant adh == AdherenceEarned(cats[..i])
      {
        assert cats[..i + 1][..i] == cats[..i];
        var c := cats[i];
        if IsTechnical(c.name) {
          tq := tq + c.earned;
        } else if c.name == Adherence {
          adh := adh + c.earned;
        }
        AdherenceNotTechnical();
      }
      assert cats[..|cats|] == cats;
      var earned := tq + adh;
      var max := TotalTechnicalMax + adhMax;
      var percent := 0.0;
      if max > 0.0 {
        percent := round2(earned / max * 100.0);
      }
      r := Report(tq, TotalTechnicalMax, adh, adhMax, earned, max, percent);
    }
  }
}
