/**
 * The pure helpers of the static site generator
 * (v4/benchmark_site_generator/generate_site.py): `slugify`, the display
 * formatters, the breadcrumb table and the leaderboard order.
 */
module Site {
  import opened Text
  import opened Wrappers

  // ---------------------------------------------------------------------
  // slugify
  // ---------------------------------------------------------------------

  /** The characters `[a-z0-9\-._]` that survive the filter pass. */
  predicate SlugChar(c: char) {
    ('a' <= c <= 'z') || ('0' <= c <= '9') || c == '-' || c == '.' || c == '_'
  }

  predicate AllSlugChars(s: string) {
    forall i :: 0 <= i < |s| ==> SlugChar(s[i])
  }

  predicate NoDoubleDash(s: string) {
    forall i :: 0 <= i < |s| - 1 ==> !(s[i] == '-' && s[i + 1] == '-')
  }

  /** What a slug looks like: only slug characters, no `--`, no `-` at either end. */
  predicate IsSlug(s: string) {
    AllSlugChars(s) && NoDoubleDash(s) && (s == [] || (s[0] != '-' && s[|s| - 1] != '-'))
  }

  /** `re.sub(r'\s+', '-', s)`: each maximal run of whitespace becomes one `-`. */
  function DashSpaceRuns(s: string): (r: string)
    ensures forall i :: 0 <= i < |r| ==> !IsSpace(r[i])
    decreases |s|
  {
    if s == [] then []
    else if IsSpace(s[0]) then "-" + DashSpaceRuns(TrimStart(s[1..]))
    else [s[0]] + DashSpaceRuns(s[1..])
  }

  /** `re.sub(r'[^a-z0-9\-._]', '', s)`. */
  function KeepSlugChars(s: string): (r: string)
    ensures AllSlugChars(r)
  {
    if s == [] then []
    else if SlugChar(s[0]) then [s[0]] + KeepSlugChars(s[1..])
    else KeepSlugChars(s[1..])
  }

  /** `re.sub(r'-+', '-', s)`: each run of dashes becomes one. */
  function SquashDashes(s: string): (r: string)
    ensures NoDoubleDash(r)
    ensures s != [] ==> r != [] && r[0] == s[0]
    ensures AllSlugChars(s) ==> AllSlugChars(r)
  {
    if |s| < 2 then s
    else if s[0] == '-' && s[1] == '-' then SquashDashes(s[1..])
    else [s[0]] + SquashDashes(s[1..])
  }

  /** `s.lstrip('-')`. */
  function DropLeadingDashes(s: string): (r: string)
    ensures |r| <= |s| && r == s[|s| - |r|..]
    ensures r == [] || r[0] != '-'
  {
    if s != [] && s[0] == '-' then DropLeadingDashes(s[1..]) else s
  }

  /** `s.rstrip('-')`. */
  function DropTrailingDashes(s: string): (r: string)
    ensures |r| <= |s| && r == s[..|r|]
    ensures r == [] || r[|r| - 1] != '-'
  {
    if s != [] && s[|s| - 1] == '-' then DropTrailingDashes(s[..|s| - 1]) else s
  }

  /** `s.strip('-')`: a slice of `s`, so it keeps the character and dash properties of `s`. */
  function StripDashes(s: string): (r: string)
    ensures AllSlugChars(s) && NoDoubleDash(s) ==> IsSlug(r)
  {
    var t := DropLeadingDashes(s);
    var r := DropTrailingDashes(t);
    SliceKeepsSlug(s, |s| - |t|, |s|);
    assert t == s[|s| - |t|..|s|];
    SliceKeepsSlug(t, 0, |r|);
    assert r == t[0..|r|];
    r
  }

  /** A slice of a string of slug characters without `--` is one too. */
  lemma SliceKeepsSlug(s: string, lo: nat, hi: nat)
    requires lo <= hi <= |s|
    ensures AllSlugChars(s) && NoDoubleDash(s) ==> AllSlugChars(s[lo..hi]) && NoDoubleDash(s[lo..hi])
  {
    if AllSlugChars(s) && NoDoubleDash(s) {
      var u := s[lo..hi];
      forall i | 0 <= i < |u| ensures SlugChar(u[i]) {
        assert u[i] == s[lo + i];
      }
      forall i | 0 <= i < |u| - 1 ensures !(u[i] == '-' && u[i + 1] == '-') {
        assert u[i] == s[lo + i] && u[i + 1] == s[lo + i + 1];
      }
    }
  }

  /**
   * `slugify`: lower-case, whitespace runs to `-`, drop every other
   * character outside `[a-z0-9-._]`, squash dashes, strip dashes.
   */
  function Slugify(text: string): (slug: string)
    ensures IsSlug(slug)
    ensures IsLowerCase(slug)
    ensures text == [] ==> slug == []
  {
    if text == [] then []
    else StripDashes(SquashDashes(KeepSlugChars(DashSpaceRuns(Lower(text)))))
  }

  lemma {:induction false} DashSpaceRunsNoop(s: string)
    requires forall i :: 0 <= i < |s| ==> !IsSpace(s[i])
    ensures DashSpaceRuns(s) == s
    decreases |s|
  {
    if s != [] {
      DashSpaceRunsNoop(s[1..]);
      assert s == [s[0]] + s[1..];
    }
  }

  lemma {:induction false} KeepSlugCharsNoop(s: string)
    requires AllSlugChars(s)
    ensures KeepSlugChars(s) == s
    decreases |s|
  {
    if s != [] {
      KeepSlugCharsNoop(s[1..]);
      assert s == [s[0]] + s[1..];
    }
  }

  lemma {:induction false} SquashDashesNoop(s: string)
    requires NoDoubleDash(s)
    ensures SquashDashes(s) == s
    decreases |s|
  {
    if |s| >= 2 {
      SquashDashesNoop(s[1..]);
      assert s == [s[0]] + s[1..];
    }
  }

  /** A slug is a fixed point of `slugify`. */
  lemma SlugFixed(s: string)
    requires IsSlug(s)
    ensures Slugify(s) == s
  {
    if s != [] {
      LowerOfLowerCase(s);
      DashSpaceRunsNoop(s);
      KeepSlugCharsNoop(s);
      SquashDashesNoop(s);
    }
  }

  /** Slugifying a slug changes nothing. */
  lemma SlugifyIdempotent(text: string)
    ensures Slugify(Slugify(text)) == Slugify(text)
  {
    SlugFixed(Slugify(text));
  }

  // ---------------------------------------------------------------------
  // Display formatters
  // ---------------------------------------------------------------------

  /** `format_prompt_id_display`: `P001_red_button` reads `red button (P001)`. */
  function FormatPromptId(id: string): string {
    if id == [] then "Unknown Prompt"
    else
      var parts := Split(id, '_');
      var name := Join(" ", parts[1..]);
      if name != [] then name + " (" + parts[0] + ")" else parts[0]
  }

  /** Joining pieces free of `sep` and splitting again gives the pieces back. */
  lemma {:induction false} SplitJoin(ws: seq<string>, sep: char)
    requires |ws| >= 1
    requires forall k, i :: 0 <= k < |ws| && 0 <= i < |ws[k]| ==> ws[k][i] != sep
    ensures Split(Join([sep], ws), sep) == ws
    decreases |ws|
  {
    if |ws| == 1 {
      SplitHead(ws[0], sep, |ws[0]|);
      assert ws[0][..|ws[0]|] == ws[0];
      assert Split(ws[0], sep) == [ws[0]];
    } else {
      var s := Join([sep], ws);
      assert s == ws[0] + [sep] + Join([sep], ws[1..]);
      SplitHead(s, sep, |ws[0]|);
      assert s[|ws[0]| + 1..] == Join([sep], ws[1..]);
      SplitJoin(ws[1..], sep);
      assert s[..|ws[0]|] == ws[0];
    }
  }

  /**
   * An id made of a prefix and words joined by `_` shows the words joined by
   * spaces, then the prefix in parentheses.
   */
  lemma PromptIdWords(prefix: string, words: seq<string>)
    requires |words| >= 1
    requires forall i :: 0 <= i < |prefix| ==> prefix[i] != '_'
    requires forall k, i :: 0 <= k < |words| && 0 <= i < |words[k]| ==> words[k][i] != '_'
    requires Join(" ", words) != []
    ensures FormatPromptId(prefix + "_" + Join("_", words)) == Join(" ", words) + " (" + prefix + ")"
  {
    var ws := [prefix] + words;
    assert ws[1..] == words;
    assert Join("_", ws) == prefix + "_" + Join("_", words);
    SplitJoin(ws, '_');
  }

  lemma JoinPair(sep: string, a: string, b: string)
    ensures Join(sep, [a, b]) == a + sep + b
  {
    assert [a, b][1..] == [b];
  }

  lemma PromptIdExample(id: string)
    requires id == "P001_red_button"
    ensures FormatPromptId(id) == "red button (P001)"
  {
    var words := ["red", "button"];
    assert id == "P001" + "_" + Join("_", words) by {
      JoinPair("_", "red", "button");
      assert id == "P001" + "_" + ("red" + "_" + "button");
    }
    assert Join(" ", words) == "red button" by {
      JoinPair(" ", "red", "button");
    }
    assert forall k, i :: 0 <= k < |words| && 0 <= i < |words[k]| ==> words[k][i] != '_';
    PromptIdWords("P001", words);
  }

  /** An id with nothing after its first `_` (or with no `_` at all) shows just its first part. */
  lemma PromptIdWithoutName(prefix: string)
    requires prefix != []
    requires forall i :: 0 <= i < |prefix| ==> prefix[i] != '_'
    ensures FormatPromptId(prefix) == prefix
    ensures FormatPromptId(prefix + "_") == prefix
  {
    SplitHead(prefix, '_', |prefix|);
    var id := prefix + "_";
    SplitHead(id, '_', |prefix|);
    assert id[..|prefix|] == prefix;
    assert id[|prefix| + 1..] == [];
  }

  /** `format_date_tested_from_run_id`: `run_YYYYMMDD-HHMMSS` reads `MM/DD/YYYY`. */
  function FormatDateTested(runId: string): (r: string)
    ensures !StartsWith(runId, "run_") ==> r == "N/A"
  {
    if runId == [] || !StartsWith(runId, "run_") then "N/A"
    else
      SplitHead(runId, '_', 3);
      var date := Split(Split(runId, '_')[1], '-')[0];
      if |date| == 8 then date[4..6] + "/" + date[6..8] + "/" + date[0..4] else runId
  }

  /** The second `_`-piece of a run id, split at its first `-`, is the date. */
  lemma RunIdPieces(runId: string, body: string, date: string)
    requires runId == "run_" + body
    requires forall i :: 0 <= i < |body| ==> body[i] != '_'
    requires |date| <= |body| && body[..|date|] == date
    requires forall i :: 0 <= i < |date| ==> date[i] != '-'
    requires |date| == |body| || body[|date|] == '-'
    ensures |Split(runId, '_')| >= 2 && Split(Split(runId, '_')[1], '-')[0] == date
  {
    SplitHead(runId, '_', 3);
    assert runId[4..] == body;
    SplitHead(body, '_', |body|);
    assert body[..|body|] == body;
    SplitHead(body, '-', |date|);
  }

  lemma DateTestedOfRunId(year: string, month: string, day: string, time: string)
    requires |year| == 4 && |month| == 2 && |day| == 2
    requires forall i :: 0 <= i < 8 ==> (year + month + day)[i] != '_' && (year + month + day)[i] != '-'
    requires forall i :: 0 <= i < |time| ==> time[i] != '_'
    ensures FormatDateTested("run_" + year + month + day + "-" + time) == month + "/" + day + "/" + year
  {
    var date := year + month + day;
    var body := date + "-" + time;
    var runId := "run_" + body;
    assert runId == "run_" + year + month + day + "-" + time;
    assert body[..8] == date;
    RunIdPieces(runId, body, date);
    assert StartsWith(runId, "run_") by { assert runId[..4] == "run_"; }
    assert date[4..6] == month && date[6..8] == day && date[0..4] == year;
  }

  /** A run id whose date part is not 8 characters long is shown unchanged. */
  lemma DateTestedOtherwise(body: string)
    requires forall i :: 0 <= i < |body| ==> body[i] != '_' && body[i] != '-'
    requires |body| != 8
    ensures FormatDateTested("run_" + body) == "run_" + body
  {
    var runId := "run_" + body;
    RunIdPieces(runId, body, body);
    assert StartsWith(runId, "run_") by { assert runId[..4] == "run_"; }
  }

  /** `format_timestamp_display`: `YYYYMMDD-HHMMSS` reads `MM/DD/YYYY HH:MM:SS`. */
  function FormatTimestamp(ts: string): (r: string)
    ensures |ts| < 15 ==> r == "N/A"
    ensures |ts| >= 15 ==> |r| == 19
  {
    if |ts| < 15 then "N/A"
    else ts[4..6] + "/" + ts[6..8] + "/" + ts[0..4] + " " + ts[9..11] + ":" + ts[11..13] + ":" + ts[13..15]
  }

  /** `format_timestamp_display_timeonly`: the time part of the full display. */
  function FormatTimeOnly(ts: string): (r: string)
    ensures |ts| < 15 ==> r == "N/A"
    ensures |ts| >= 15 ==> r == FormatTimestamp(ts)[11..]
  {
    if |ts| < 15 then "N/A"
    else ts[9..11] + ":" + ts[11..13] + ":" + ts[13..15]
  }

  lemma TimestampOfParts(year: string, month: string, day: string, sep: char,
                         hour: string, minute: string, second: string, rest: string)
    requires |year| == 4 && |month| == 2 && |day| == 2 && |hour| == 2 && |minute| == 2 && |second| == 2
    ensures var ts := year + month + day + [sep] + hour + minute + second + rest;
            FormatTimestamp(ts) == month + "/" + day + "/" + year + " " + hour + ":" + minute + ":" + second
            && FormatTimeOnly(ts) == hour + ":" + minute + ":" + second
  {
    var ts := year + month + day + [sep] + hour + minute + second + rest;
    assert ts[0..4] == year && ts[4..6] == month && ts[6..8] == day;
    assert ts[9..11] == hour && ts[11..13] == minute && ts[13..15] == second;
  }

  // ---------------------------------------------------------------------
  // Breadcrumbs and the relative path to the site root
  // ---------------------------------------------------------------------

  datatype PageType = MainIndexLatestRun | AllRunsArchive | ModelDetail | PromptDetail | ArchivedRunIndex
                    | OtherPage

  datatype Crumb = Crumb(text: string, url: string)

  /** The parts of `model_data_obj` the breadcrumbs read: its run name and its slug. */
  datatype ModelRef = ModelRef(runName: string, slug: string)

  datatype Breadcrumbs = Breadcrumbs(crumbs: seq<Crumb>, toRoot: string)

  /** The links the breadcrumbs point at, each behind the page's prefix `up`. */
  function ArchiveUrl(up: string): (u: string)
    ensures StartsWith(u, up)
  {
    up + "all_runs_archive.html"
  }

  /** The link to a run's index page, `runs/<run id>/index.html`. */
  function RunUrl(up: string, runId: string): (u: string)
    ensures StartsWith(u, up)
    ensures u == up + Url(PathOf(RunIndex(runId)))
  {
    UrlOfThree("runs", runId, "index.html");
    up + ("runs/" + runId + "/index.html")
  }

  /** The link to a model's page in the latest run, `runs/<slug>.html`, which sits beside the run folders. */
  function LatestModelUrl(up: string, slug: string): (u: string)
    ensures StartsWith(u, up)
    ensures u == up + Url(PathOf(LatestModel(slug)))
  {
    UrlOfTwo("runs", slug + ".html");
    up + ("runs/" + slug + ".html")
  }

  /** The link to a model's page in an archived run, `runs/<run id>/<slug>.html`. */
  function ArchivedModelUrl(up: string, runId: string, slug: string): (u: string)
    ensures StartsWith(u, up)
    ensures u == up + Url(PathOf(ArchivedModel(runId, slug)))
  {
    UrlOfThree("runs", runId, slug + ".html");
    up + ("runs/" + runId + "/" + slug + ".html")
  }

  /** `get_breadcrumbs_and_rel_path`. */
  function GetBreadcrumbs(page: PageType, runId: string, model: Option<ModelRef>, latest: bool): (b: Breadcrumbs)
    ensures forall i :: 0 <= i < |b.crumbs| ==> StartsWith(b.crumbs[i].url, b.toRoot)
    ensures b.toRoot in {"", "../", "../../", "../../../"}
  {
    var archive := "Benchmark Archive";
    match page
      case MainIndexLatestRun => Breadcrumbs([], "")
      case AllRunsArchive => Breadcrumbs([], "")
      case ModelDetail =>
        if latest then Breadcrumbs([], "../")
        else
          var up := "../../";
          Breadcrumbs([Crumb(archive, ArchiveUrl(up)),
                       Crumb("Run: " + FormatDateTested(runId), RunUrl(up, runId))], up)
      case PromptDetail =>
        if latest then
          var up := "../../";
          Breadcrumbs(if model.Some? then [Crumb(model.value.runName, LatestModelUrl(up, model.value.slug))]
                      else [], up)
        else
          var up := "../../../";
          Breadcrumbs([Crumb(archive, ArchiveUrl(up)),
                       Crumb("Run: " + FormatDateTested(runId), RunUrl(up, runId))]
                      + (if model.Some? then
                           [Crumb(model.value.runName, ArchivedModelUrl(up, runId, model.value.slug))]
                         else []), up)
      case ArchivedRunIndex => Breadcrumbs([Crumb(archive, ArchiveUrl("../../"))], "../../")
      case OtherPage => Breadcrumbs([], "")
  }

  /** The pages the generator writes, each at a path relative to the site root. */
  datatype Page =
    | MainIndex
    | Archive
    | LatestModel(modelSlug: string)
    | LatestPrompt(modelSlug: string, promptSlug: string)
    | RunIndex(runId: string)
    | ArchivedModel(runId: string, modelSlug: string)
    | ArchivedPrompt(runId: string, modelSlug: string, promptSlug: string)

  /** The page's root-relative path, as its directory segments and file name. */
  function PathOf(p: Page): (segments: seq<string>)
    ensures |segments| >= 1
  {
    match p
      case MainIndex => ["index.html"]
      case Archive => ["all_runs_archive.html"]
      case LatestModel(m) => ["runs", m + ".html"]
      case LatestPrompt(m, q) => ["runs", "prompts", m + "_" + q + ".html"]
      case RunIndex(r) => ["runs", r, "index.html"]
      case ArchivedModel(r, m) => ["runs", r, m + ".html"]
      case ArchivedPrompt(r, m, q) => ["runs", r, "prompts", m + "_" + q + ".html"]
  }

  function Url(segments: seq<string>): string {
    Join("/", segments)
  }

  /** The run, model and latest-run flag the generator passes when it writes page `p`. */
  function CallFor(p: Page, latestRun: string, runName: string): (PageType, string, Option<ModelRef>, bool) {
    match p
      case MainIndex => (MainIndexLatestRun, "", None, false)
      case Archive => (AllRunsArchive, "", None, false)
      case LatestModel(m) => (ModelDetail, latestRun, Some(ModelRef(runName, m)), true)
      case LatestPrompt(m, _) => (PromptDetail, latestRun, Some(ModelRef(runName, m)), true)
      case RunIndex(r) => (ArchivedRunIndex, r, None, false)
      case ArchivedModel(r, m) => (ModelDetail, r, Some(ModelRef(runName, m)), false)
      case ArchivedPrompt(r, m, _) => (PromptDetail, r, Some(ModelRef(runName, m)), false)
  }

  function BreadcrumbsFor(p: Page, latestRun: string, runName: string): Breadcrumbs {
    var (page, run, model, latest) := CallFor(p, latestRun, runName);
    GetBreadcrumbs(page, run, model, latest)
  }

  /** `n` steps up: `"../"` repeated. */
  function Ups(n: nat): string {
    if n == 0 then "" else "../" + Ups(n - 1)
  }

  /** For every page the generator writes, the prefix climbs exactly the directories the page lies in. */
  lemma ToRootClimbsToSiteRoot(p: Page, latestRun: string, runName: string)
    ensures BreadcrumbsFor(p, latestRun, runName).toRoot == Ups(|PathOf(p)| - 1)
  {
    assert Ups(1) == "../";
    match p
      case MainIndex =>
      case Archive =>
      case LatestModel(_) =>
      case LatestPrompt(_, _) =>
        assert Ups(2) == "../" + "../";
      case RunIndex(_) =>
        assert Ups(2) == "../" + "../";
      case ArchivedModel(_, _) =>
        assert Ups(2) == "../" + "../";
      case ArchivedPrompt(_, _, _) =>
        assert Ups(3) == "../" + ("../" + "../");
  }

  /** A link is `toRoot` followed by the root-relative path of a page the generator writes. */
  ghost predicate LinksToPage(url: string, toRoot: string) {
    exists q :: url == toRoot + Url(PathOf(q))
  }

  /** Every crumb of `b` links, through `b`'s prefix, to a page the generator writes. */
  ghost predicate CrumbsLink(b: Breadcrumbs) {
    forall i :: 0 <= i < |b.crumbs| ==> LinksToPage(b.crumbs[i].url, b.toRoot)
  }

  /** Every crumb of every generated page links, through the page's prefix, to another generated page. */
  lemma CrumbsLinkToPages(p: Page, latestRun: string, runName: string)
    ensures CrumbsLink(BreadcrumbsFor(p, latestRun, runName))
  {
    match p
      case MainIndex =>
      case Archive =>
      case LatestModel(m) =>
      case LatestPrompt(m, q) => LatestPromptCrumbs(m, latestRun, runName);
      case RunIndex(r) => ArchiveCrumb("../../");
      case ArchivedModel(r, m) => ArchivedModelCrumbs(r, m, runName);
      case ArchivedPrompt(r, m, q) => ArchivedPromptCrumbs(r, m, runName);
  }

  lemma ArchiveCrumb(up: string)
    ensures LinksToPage(ArchiveUrl(up), up)
  {
    assert ArchiveUrl(up) == up + Url(PathOf(Archive));
  }

  lemma RunCrumb(up: string, r: string)
    ensures LinksToPage(RunUrl(up, r), up)
  {
    assert RunUrl(up, r) == up + Url(PathOf(RunIndex(r)));
  }

  lemma LatestModelCrumb(up: string, m: string)
    ensures LinksToPage(LatestModelUrl(up, m), up)
  {
    assert LatestModelUrl(up, m) == up + Url(PathOf(LatestModel(m)));
  }

  lemma ArchivedModelCrumb(up: string, r: string, m: string)
    ensures LinksToPage(ArchivedModelUrl(up, r, m), up)
  {
    assert ArchivedModelUrl(up, r, m) == up + Url(PathOf(ArchivedModel(r, m)));
  }

  lemma LatestPromptCrumbs(m: string, latestRun: string, runName: string)
    ensures CrumbsLink(GetBreadcrumbs(PromptDetail, latestRun, Some(ModelRef(runName, m)), true))
  {
    LatestModelCrumb("../../", m);
  }

  lemma ArchivedModelCrumbs(r: string, m: string, runName: string)
    ensures CrumbsLink(GetBreadcrumbs(ModelDetail, r, Some(ModelRef(runName, m)), false))
  {
    ArchiveCrumb("../../");
    RunCrumb("../../", r);
  }

  lemma ArchivedPromptCrumbs(r: string, m: string, runName: string)
    ensures CrumbsLink(GetBreadcrumbs(PromptDetail, r, Some(ModelRef(runName, m)), false))
  {
    ArchiveCrumb("../../../");
    RunCrumb("../../../", r);
    ArchivedModelCrumb("../../../", r, m);
  }

  lemma UrlOfTwo(a: string, b: string)
    ensures Url([a, b]) == a + "/" + b
  {
    assert [a, b][1..] == [b];
    assert Join("/", [b]) == b;
    assert Url([a, b]) == Join("/", [a, b]) == a + "/" + Join("/", [b]);
  }

  lemma UrlOfThree(a: string, b: string, c: string)
    ensures Url([a, b, c]) == a + "/" + b + "/" + c
  {
    assert [a, b, c][1..] == [b, c];
    UrlOfTwo(b, c);
    assert Url([a, b, c]) == Join("/", [a, b, c]) == a + "/" + Join("/", [b, c]);
    assert a + "/" + (b + "/" + c) == a + "/" + b + "/" + c;
  }

  // ---------------------------------------------------------------------
  // The leaderboard
  // ---------------------------------------------------------------------

  /** A model of a run, with its `overall_weighted_score_from_totals`. */
  datatype Entry = Entry(key: string, overall: real)

  predicate NonIncreasing(es: seq<Entry>) {
    forall i, j :: 0 <= i < j < |es| ==> es[i].overall >= es[j].overall
  }

  /** Places `x` before the first entry that does not outscore it, so earlier entries stay ahead of equal ones. */
  function Insert(x: Entry, es: seq<Entry>): (r: seq<Entry>)
    ensures multiset(r) == multiset(es) + multiset{x}
    ensures |r| == |es| + 1
  {
    if es == [] || es[0].overall <= x.overall then [x] + es
    else
      assert es == [es[0]] + es[1..];
      [es[0]] + Insert(x, es[1..])
  }

  /** Inserting into a non-increasing list keeps it non-increasing. */
  lemma {:induction false} InsertSorted(x: Entry, es: seq<Entry>)
    requires NonIncreasing(es)
    ensures NonIncreasing(Insert(x, es))
  {
    if es == [] || es[0].overall <= x.overall {
      var r := [x] + es;
      forall i, j | 0 <= i < j < |r|
        ensures r[i].overall >= r[j].overall
      {
        if i == 0 {
          assert r[j] == es[j - 1];
        } else {
          assert r[i] == es[i - 1] && r[j] == es[j - 1];
        }
      }
    } else {
      var rest := Insert(x, es[1..]);
      InsertSorted(x, es[1..]);
      var r := [es[0]] + rest;
      forall i | 0 <= i < |es[1..]|
        ensures es[1..][i].overall <= es[0].overall
      {
        assert es[1..][i] == es[i + 1];
      }
      InsertBelow(x, es[1..], es[0].overall);
      forall i, j | 0 <= i < j < |r|
        ensures r[i].overall >= r[j].overall
      {
        if i > 0 {
          assert r[i] == rest[i - 1] && r[j] == rest[j - 1];
        } else {
          assert r[j] == rest[j - 1];
        }
      }
    }
  }

  /** Inserting an entry at or below a bound into entries at or below it stays at or below it. */
  lemma {:induction false} InsertBelow(x: Entry, es: seq<Entry>, bound: real)
    requires x.overall <= bound && forall i :: 0 <= i < |es| ==> es[i].overall <= bound
    ensures forall i :: 0 <= i < |Insert(x, es)| ==> Insert(x, es)[i].overall <= bound
  {
    var r := Insert(x, es);
    if es == [] || es[0].overall <= x.overall {
      forall i | 0 < i < |r|
        ensures r[i].overall <= bound
      {
        assert r[i] == es[i - 1];
      }
    } else {
      var rest := Insert(x, es[1..]);
      forall i | 0 <= i < |es[1..]|
        ensures es[1..][i].overall <= bound
      {
        assert es[1..][i] == es[i + 1];
      }
      InsertBelow(x, es[1..], bound);
      forall i | 0 < i < |r|
        ensures r[i].overall <= bound
      {
        assert r[i] == rest[i - 1];
      }
    }
  }

  /** `sorted(models, key=overall, reverse=True)`: a stable sort, highest score first. */
  function Leaderboard(es: seq<Entry>): (r: seq<Entry>)
    ensures NonIncreasing(r)
    ensures multiset(r) == multiset(es)
  {
    if es == [] then []
    else
      assert es == [es[0]] + es[1..];
      InsertSorted(es[0], Leaderboard(es[1..]));
      Insert(es[0], Leaderboard(es[1..]))
  }
}
