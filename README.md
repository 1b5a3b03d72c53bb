# UI benchmark scoring, modelled in Dafny

The repository scores single-page web UIs that language models generate. For
each prompt, a headless browser loads the model's page at each configured
viewport. The analyzer then runs a battery of checks that award points:

- technical quality: HTML structure, Axe-core accessibility, CSS quality,
  viewport meta tag and horizontal scroll, rendered text contrast, Lighthouse,
  and the JavaScript console;
- prompt adherence: element presence, order and count, text, attribute and CSS
  values, scripted interactions and custom scripts.

It combines the two into a 30/70 weighted score per prompt and per model. A
static site generator publishes the results as leaderboards and detail pages,
and a chart script splits each model's score into its two weighted parts.

This project models the scoring core of the current analyzer
(`v4/ui_benchmark_analyzer.py`) and the scoring core of its two predecessors
(`v2/main.py`, `v1/main.py`). It also models the pure helpers of the site
generator and the score split of the chart script.

**How the model is organised**

- The browser is not modelled. What the browser reports becomes an input:
  computed colours, element lists, Axe impacts, Lighthouse scores, log entries
  and whether a poll found an outcome.
- Code that updates state becomes a `class`:
  - the per-prompt score sheet is `ScoringV4.PromptScores`;
  - the earlier analyzers' `self.scores` are `ScoringV2.Scores` and `ScoringV1.Scores`.
- Loops become methods with invariants, each proved against a specification
  function. Pure helpers become functions and lemmas.

**Modules**

| Module | File | Contents |
|---|---|---|
| `ColourV4` | `v4_colour.dfy` | colour parsing, alpha blending, the effective-background walk |
| `TechnicalV4` | `v4_technical.dfy` | the technical-quality checks |
| `ChecksV4` | `v4_checks.dfy` | the adherence checks and interaction outcomes |
| `InteractionV4` | `v4_interaction.dfy` | `_execute_and_verify_interaction` |
| `ScoringV4` | `v4_scoring.dfy` | `_add_finding`, adherence dedup, report, viewport plan, aggregation |
| `ColourV2`, `ChecksV2`, `ScoringV2` | `v2_*.dfy` | the second analyzer, related to the current one lemma by lemma |
| `ColourV1`, `ScoringV1` | `v1_*.dfy` | the first analyzer |
| `Site` | `site.dfy` | slugs, display formatters, breadcrumbs, page paths, leaderboard order |
| `ScoreView` | `view_scores.dfy` | the chart's score split |

`Text`, `Lexemes`, `Findings` and `Wrappers` hold shared helpers:

- Python string operations, restricted to ASCII;
- regular-expression fields and `int(x, 16)`/`float(x)` lexemes;
- the finding record and sums;
- `Option`.

Python's `round(x, 2)` is left as an uninterpreted function parameter
(`round2`). No contract depends on how it rounds.

The analyzers differ in their constants, and each is modelled with its own.
For example, the current analyzer takes 2.5 points per AA contrast failure
(v4/ui_benchmark_analyzer.py:645-650), where the first analyzer takes 3.

## Model

| member | source | states |
|---|---|---|
| ColourV4.ParseColor | v4/ui_benchmark_analyzer.py:70-94 | a parsed colour never has alpha 0; empty input and `transparent` (in any case, with surrounding space) give no colour |
| ColourV4.ParseNormalizes | v4/ui_benchmark_analyzer.py:71-72 | parsing ignores case and surrounding whitespace |
| ColourV4.HexNormal | v4/ui_benchmark_analyzer.py:74-82 | a lower-case `#` string with a 3, 6 or 8 digit tail is read by the hex branch |
| ColourV4.ParseHexLong | v4/ui_benchmark_analyzer.py:77 | `#rrggbb` reads back its three bytes as an opaque colour |
| ColourV4.ParseHexShort | v4/ui_benchmark_analyzer.py:76 | `#rgb` doubles each digit (17·d per channel), opaque |
| ColourV4.ParseHexAlpha | v4/ui_benchmark_analyzer.py:78-82 | `#rrggbbaa` reads alpha as aa/255; alpha byte 00 gives no colour |
| ColourV4.FunctionalNormal | v4/ui_benchmark_analyzer.py:83-91 | a normal-form `rgb(`/`rgba(` string goes to the functional branches unchanged |
| ColourV4.NormalFunctional | v4/ui_benchmark_analyzer.py:74-83 | text not starting with `t` or `#` skips to the regular-expression forms |
| ColourV4.ParseRgb | v4/ui_benchmark_analyzer.py:89-91 | `rgb(r,g,b)` reads back as the opaque (r, g, b) |
| ColourV4.ParseRgbaWithoutAlpha | v4/ui_benchmark_analyzer.py:83-88 | `rgba(r,g,b)` without the optional alpha group is opaque |
| ColourV4.ParseRgbaWithAlpha | v4/ui_benchmark_analyzer.py:83-88 | `rgba(r,g,b,al)` takes `float(al)`: an unreadable lexeme raises, 0 gives no colour, otherwise that alpha |
| ColourV4.ParseUnrecognised | v4/ui_benchmark_analyzer.py:92-94 | any other text is one of the five named colours or no colour |
| ColourV4.Trunc | v4/ui_benchmark_analyzer.py:103-105 | `int(x)` truncates toward zero: floor for non-negative x, the least integer at or above x for negative x |
| ColourV4.Blend | v4/ui_benchmark_analyzer.py:100-106 | an opaque foreground hides the background; an alpha-0 foreground leaves it |
| ColourV4.BlendChannelBetween | v4/ui_benchmark_analyzer.py:103-105 | a blended channel lies between the two channels it mixes, hence within 0..255 |
| ColourV4.BlendAllInRange | v4/ui_benchmark_analyzer.py:124 | compositing any stack of in-range layers stays within byte range |
| ColourV4.HalfBlackOverWhite | v4/ui_benchmark_analyzer.py:100-106 | half-transparent black over white is (127, 127, 127), 127.5 truncated |
| ColourV4.BlendLayers | v4/ui_benchmark_analyzer.py:124 | the `reversed(path)` loop composites the layers outermost first, as `BlendAll` |
| ColourV4.EffectiveBackgroundRgb | v4/ui_benchmark_analyzer.py:108-133 | the walk's loop computes exactly the specified effective background |
| ColourV4.EffectiveBackgroundIsWalk | v4/ui_benchmark_analyzer.py:111-113 | unless the document colour raised, the walk starts from that colour when it is opaque, else from white |
| ColourV4.WalkPrefix | v4/ui_benchmark_analyzer.py:115-130 | passing through nodes only collects their translucent layers |
| ColourV4.FirstOpaqueIsBase | v4/ui_benchmark_analyzer.py:121-125 | the first opaque node is the base: the layers in front of it are composited onto it, nothing beyond matters |
| ColourV4.OpaqueWithoutLayers | v4/ui_benchmark_analyzer.py:121-125 | an opaque node with no translucent layer in front of it is the answer unchanged |
| ColourV4.StopsAtRootOrBody | v4/ui_benchmark_analyzer.py:126-127 | a non-opaque html/body node ends the walk on the fallback, with its own layer |
| ColourV4.ChainExhausted | v4/ui_benchmark_analyzer.py:128-132 | a chain that runs out composites every layer onto the fallback |
| ColourV4.ParseErrorEscapes | v4/ui_benchmark_analyzer.py:120-131 | a `ValueError` from `float()` is not caught by the walk and escapes |
| ColourV4.HalfBlackOnWhiteBody | v4/ui_benchmark_analyzer.py:108-133 | a half-black element over a white body resolves to (127, 127, 127) |
| TechnicalV4.ScanHeadingOrder | v4/ui_benchmark_analyzer.py:380-387 | the heading loop with its early break decides exactly `HeadingOrderOk` |
| TechnicalV4.HeadingDepthBound | v4/ui_benchmark_analyzer.py:380-387 | in a passing outline opening with h1, the k-th heading is at most level k+1 |
| TechnicalV4.HeadingOrderStartsAtH1 | v4/ui_benchmark_analyzer.py:380-387 | when an h1 exists, a passing outline starts with it |
| TechnicalV4.HtmlStructureFindings | v4/ui_benchmark_analyzer.py:324-430 | nine findings under the HTML category, with maxima 1,…,1,2; each earns either nothing or its full max |
| TechnicalV4.HtmlPageVerdicts | v4/ui_benchmark_analyzer.py:324-430 | full points exactly for: a non-blank `lang`; a title that is not empty, "N/A" or blank; exactly one h1; headings in order |
| TechnicalV4.HtmlElementVerdicts | v4/ui_benchmark_analyzer.py:324-430 | full points exactly for: main, nav and footer each found and displayed; every displayed image with an `alt`; every displayed form field labelled |
| TechnicalV4.HtmlStructureTotals | v4/ui_benchmark_analyzer.py:331-343 | the sub-check points add up to the configured 10 and the earned total stays in [0, 10] |
| TechnicalV4.AxePenaltyIsWeightSum | v4/ui_benchmark_analyzer.py:444-451 | the count-based penalty equals the per-violation sum of impact weights |
| TechnicalV4.AxeFinding | v4/ui_benchmark_analyzer.py:431-457 | always within [0, 20] under the Axe category; a completed run earns 20 minus the penalty, floored at 0 |
| TechnicalV4.AxeMonotone | v4/ui_benchmark_analyzer.py:444-451 | more violations never earn more |
| TechnicalV4.AxeCriticalFails | v4/ui_benchmark_analyzer.py:444-452 | a critical violation costs at least half the points and marks FAIL |
| TechnicalV4.Tiered | v4/ui_benchmark_analyzer.py:493-509 | PASS with full points iff the count is at most the first threshold, WARN with half up to the second, FAIL with none beyond |
| TechnicalV4.TieredMonotone | v4/ui_benchmark_analyzer.py:493-509 | a larger count never scores more |
| TechnicalV4.CssQualityFindings | v4/ui_benchmark_analyzer.py:458-512 | four CSS findings with maxima 2,1,1,1: variables earn 2 (PASS) iff at least one is defined; the layout point iff body or main is flex or grid; inline styles tiered at 3 and 10; `!important` tiered at 0 and 2; any observation that raised gives 0 FAIL |
| TechnicalV4.CssQualityTotals | v4/ui_benchmark_analyzer.py:458-512 | the CSS sub-checks add up to the configured 5 and the earned total stays in [0, 5] |
| TechnicalV4.NoImportantFullPoint | v4/ui_benchmark_analyzer.py:502-509 | style text without `!important` in any case earns the full point |
| TechnicalV4.ViewportMetaFinding | v4/ui_benchmark_analyzer.py:522-534 | full points iff the tag exists and its lower-cased content passes the rule, else 0; a tag without `content` ends the analysis (no finding) |
| TechnicalV4.InitialScaleAlternativeRedundant | v4/ui_benchmark_analyzer.py:526-527 | the `initial-scale=1.0` alternative never changes the verdict |
| TechnicalV4.MaximumScaleTenRefused | v4/ui_benchmark_analyzer.py:526-527 | the substring test also refuses `maximum-scale=10` |
| TechnicalV4.ScrollFinding | v4/ui_benchmark_analyzer.py:537-544 | full points iff the page was measured without horizontal scroll, else 0 |
| TechnicalV4.ResponsivenessFindings | v4/ui_benchmark_analyzer.py:513-545 | once the meta tag is scored, later viewports put only the scroll points at stake; a meta tag without `content` at the scoring viewport ends the analysis |
| TechnicalV4.ScanContrast | v4/ui_benchmark_analyzer.py:600-643 | the contrast loop's three counters are `TallyOf` the observed candidates |
| TechnicalV4.TallyOf | v4/ui_benchmark_analyzer.py:600-643 | AA failures plus AAA-only warnings never exceed the checked count, which never exceeds the candidates |
| TechnicalV4.ContrastResult | v4/ui_benchmark_analyzer.py:586-650 | no candidates is 15/15 INFO; none checked is 0 FAIL; n AA failures earn max(0, 15 − 2.5·n) FAIL; otherwise 15 PASS |
| TechnicalV4.ContrastMonotone | v4/ui_benchmark_analyzer.py:645-650 | more AA failures never earn more; six or more earn nothing |
| TechnicalV4.ContrastFinding | v4/ui_benchmark_analyzer.py:546-651 | the whole check computes `ContrastSpec`: within [0, 15] under the contrast category |
| TechnicalV4.ContrastAllReadable | v4/ui_benchmark_analyzer.py:600-650 | when every candidate is judged and passes AA, all are counted and none fails |
| TechnicalV4.BoldWeights | v4/ui_benchmark_analyzer.py:626 | `bold`, `Bolder`, `700` are bold; `normal`, `400` and a missing weight are not |
| TechnicalV4.LighthouseFinding | v4/ui_benchmark_analyzer.py:652-721 | the finding of each of the four categories, in order, out of its configured max: score × max rounded, with the status of the score's band (or FAIL 0 when the category has no score); a missing CLI gives WARN 0, every other failure FAIL 0 |
| TechnicalV4.LighthouseStatusMonotone | v4/ui_benchmark_analyzer.py:711 | a better score never has a worse status |
| TechnicalV4.CollectJsErrors | v4/ui_benchmark_analyzer.py:731-737 | the filtering loop returns exactly `JsErrors` of the log |
| TechnicalV4.ExtensionClauseRedundant | v4/ui_benchmark_analyzer.py:732-736 | the `Unchecked runtime.lastError` clause never fires, since `extension` is already ignored |
| TechnicalV4.JsHealthFinding | v4/ui_benchmark_analyzer.py:724-745 | no finding (the analysis ends) iff a counted error has an empty message; an unreadable log is 0/5 WARN; otherwise PASS with 5 points iff no error is counted, and FAIL with 0 iff one is |
| TechnicalV4.JsErrorsFrom | v4/ui_benchmark_analyzer.py:733-738 | a message is collected iff some severe, not ignored, non-extension entry carries it |
| TechnicalV4.JsHealthAbortsOnEmptyMessage | v4/ui_benchmark_analyzer.py:733-738 | the check ends the analysis iff some counted console entry has an empty message |
| ChecksV4.CompareCounts | v4/ui_benchmark_analyzer.py:1079-1096 | passes iff the accepted-count set (expected with comparator, else range or bound) admits the count |
| ChecksV4.CompareCountsCaseInsensitive | v4/ui_benchmark_analyzer.py:1081 | comparator names are matched without regard to case |
| ChecksV4.CompareCountsExpectedFirst | v4/ui_benchmark_analyzer.py:1082-1091 | an expected count makes min/max irrelevant |
| ChecksV4.CompareCountsInvalid | v4/ui_benchmark_analyzer.py:1089-1094 | invalid parameters fail for every count; a valid expected count passes for some count |
| ChecksV4.CompareCountsRange | v4/ui_benchmark_analyzer.py:1091 | min and max form an inclusive range |
| ChecksV4.CompareCountsStrictness | v4/ui_benchmark_analyzer.py:1083-1088 | `greater_than_or_equals` passes exactly when `greater_than` or `equals` does, and `less_than_or_equals` exactly when `less_than` or `equals` does, in any letter case |
| ChecksV4.NotEqualsNegates | v4/ui_benchmark_analyzer.py:1083-1088 | `not_equals` passes exactly when `equals` fails, in any letter case |
| ChecksV4.Presence | v4/ui_benchmark_analyzer.py:821-835 | without `should_not_exist`, passes iff the element is found and displayed |
| ChecksV4.PresenceInverts | v4/ui_benchmark_analyzer.py:828-834 | `should_not_exist` inverts the verdict on every observation |
| ChecksV4.Order | v4/ui_benchmark_analyzer.py:837-859 | passes iff ≥ 2 selectors, all displayed, indices read, and no adjacent pair out of order |
| ChecksV4.OrderSortedPasses | v4/ui_benchmark_analyzer.py:837-859 | with all elements displayed and inside the document, the order check passes iff the indices are sorted |
| ChecksV4.AdjacentInOrderIsSorted | v4/ui_benchmark_analyzer.py:848-849 | without `-1` entries, the adjacent-pair test is exactly sortedness |
| ChecksV4.MissingIndexSkipsComparison | v4/ui_benchmark_analyzer.py:849 | a `-1` index breaks the chain: `[5, -1, 3]` passes though unsorted |
| ChecksV4.TextMatches | v4/ui_benchmark_analyzer.py:868-888 | needs a displayed element; exact/contains on stripped, case-folded texts; unknown match type fails |
| ChecksV4.TextIgnoresSurroundingSpace | v4/ui_benchmark_analyzer.py:871 | surrounding whitespace of the element text never matters |
| ChecksV4.TextIgnoresCase | v4/ui_benchmark_analyzer.py:878 | without `case_sensitive`, exact/contains do not see the text's case |
| ChecksV4.TextCaseSensitiveIsStricter | v4/ui_benchmark_analyzer.py:878-881 | a case-sensitive match is also a case-insensitive one |
| ChecksV4.TextExactImpliesContains | v4/ui_benchmark_analyzer.py:880-881 | an exact match is also a contains match |
| ChecksV4.AttributeMatches | v4/ui_benchmark_analyzer.py:890-912 | needs the element; a boolean is matched against presence other than "false"; None asks for absence; outside the class rules the `str` texts are compared |
| ChecksV4.ClassContainsAll | v4/ui_benchmark_analyzer.py:902-905 | `class_contains_all` passes iff every listed name is a class token |
| ChecksV4.ClassContainsAny | v4/ui_benchmark_analyzer.py:906-909 | `class_contains_any` passes iff some listed name is a class token |
| ChecksV4.ClassEmptyList | v4/ui_benchmark_analyzer.py:902-909 | an empty list is contained in any class attribute and intersects none |
| ChecksV4.ClassNumberNeverMatches | v4/ui_benchmark_analyzer.py:904-908 | a non-string expected value is never a class token |
| ChecksV4.ClassSingleName | v4/ui_benchmark_analyzer.py:900-908 | either class rule with a single expected string passes iff that string is a class token |
| ChecksV4.SameColour | v4/ui_benchmark_analyzer.py:923-927 | a colour text whose parse raises never matches; two colours match iff their RGB agree; when a side parses to no colour, iff the texts are equal |
| ChecksV4.CssMatches | v4/ui_benchmark_analyzer.py:914-934 | needs a displayed element and a readable value; a property whose name contains "color" passes iff `SameColour` of the stripped values; `font-weight` passes iff the normalised weights are equal; other properties compare stripped texts |
| ChecksV4.CssWeightAliases | v4/ui_benchmark_analyzer.py:928-931 | on `font-weight`, "bold" matches "700" and "normal" matches "400", whatever whitespace surrounds them |
| ChecksV4.SameColourIgnoresAlpha | v4/ui_benchmark_analyzer.py:926 | two parsed colours match iff red, green and blue agree |
| ChecksV4.SameColourReflexive | v4/ui_benchmark_analyzer.py:923-927 | a readable colour text matches itself |
| ChecksV4.FontWeightAliases | v4/ui_benchmark_analyzer.py:928-931 | `bold`≡`700` and `normal`≡`400` |
| ChecksV4.CustomScript | v4/ui_benchmark_analyzer.py:780-801 | passes iff a script is given, no required element is missing, and the script returns true |
| ChecksV4.VisibilityHolds | v4/ui_benchmark_analyzer.py:1018-1022 | `visible` iff displayed, `hidden` iff not, anything else fails |
| ChecksV4.ClassChangeHolds | v4/ui_benchmark_analyzer.py:1004-1017 | passes iff the target exists, some condition is given, and each given condition holds |
| ChecksV4.UrlHolds | v4/ui_benchmark_analyzer.py:1050-1061 | exact, starts_with, ends_with, contains compare the current URL as named |
| ChecksV4.UrlMatchesItself | v4/ui_benchmark_analyzer.py:1053-1056 | every non-regex URL match accepts the URL itself |
| ChecksV4.OutcomeHolds | v4/ui_benchmark_analyzer.py:998-1077 | a selector without a selector type fails every outcome; otherwise, with nothing looked up when there is no selector: exists iff the target is present and no visibility is asked for; does-not-exist iff absent; visibility, class, child-count and URL outcomes as their checks; an unknown type fails |
| ChecksV4.ExistsWithVisibilityNeverHolds | v4/ui_benchmark_analyzer.py:1025-1031 | as written, `element_exists` with an `expected_visibility` fails on every page |
| ChecksV4.ExistsIntended | v4/ui_benchmark_analyzer.py:1025-1031 | the intended rule: present, and "visible" wants a displayed target, "hidden" a present but undisplayed one |
| ChecksV4.ExistsIntendedAgrees | v4/ui_benchmark_analyzer.py:1025-1031 | without a visibility condition the code and the intended rule agree |
| ChecksV4.ExistsComplementsDoesNotExist | v4/ui_benchmark_analyzer.py:1025-1034 | without a visibility condition, and with a lookup that does not raise, the two outcomes are complementary |
| InteractionV4.EventuallyIff | v4/ui_benchmark_analyzer.py:1124-1126 | the polling wait succeeds iff some poll sees the outcome hold |
| InteractionV4.OutcomeLogAt | v4/ui_benchmark_analyzer.py:1121-1130 | one log line per outcome, in order, whatever its verdict |
| InteractionV4.SetupError | v4/ui_benchmark_analyzer.py:1100-1102 | no error iff every setup action succeeds; else one of their errors |
| InteractionV4.Message | v4/ui_benchmark_analyzer.py:1102-1137 | the returned message for pass, fail and setup failure; an escaped error returns none |
| InteractionV4.VerifyOutcomes | v4/ui_benchmark_analyzer.py:1119-1131 | the outcome loop stops only at an escaping error; otherwise it checks every outcome and logs each, without stopping at a failure |
| InteractionV4.RunStep | v4/ui_benchmark_analyzer.py:1104-1132 | one step stops at the first trigger/action problem; it escapes iff an outcome does; else its verdict is all outcomes passing |
| InteractionV4.RunSetup | v4/ui_benchmark_analyzer.py:1100-1102 | the setup loop stops at the first action that raises and reports its error; with no error it reports none, as `SetupError` |
| InteractionV4.RunSteps | v4/ui_benchmark_analyzer.py:1104-1132 | the loop escapes iff a reached step lets an error escape; otherwise it passes iff every step passes, and its log is each passing step's log followed by the first failing step's, as `StepsLog` |
| InteractionV4.RunCleanup | v4/ui_benchmark_analyzer.py:1134-1136 | every cleanup action runs and each one that raises adds one warning, as `CleanupLog` |
| InteractionV4.ExecuteInteraction | v4/ui_benchmark_analyzer.py:1098-1138 | setup error returns at once; steps run until one fails; an escaped error ends the interaction without cleanup; otherwise cleanup runs; result as `Interact` |
| InteractionV4.SetupErrorDecides | v4/ui_benchmark_analyzer.py:1100-1102 | the first setup error is the result and nothing else happens |
| InteractionV4.LaterStepsNeverRun | v4/ui_benchmark_analyzer.py:1131 | after a failing step, further steps change neither the log nor the verdict |
| InteractionV4.EveryOutcomeLogged | v4/ui_benchmark_analyzer.py:1119-1130 | once the action ran, every outcome's verdict is logged in order |
| InteractionV4.StepPassedIff | v4/ui_benchmark_analyzer.py:1131-1132 | a step passes iff its log ends with its "Passed" line |
| InteractionV4.CleanupNeverDecides | v4/ui_benchmark_analyzer.py:1134-1137 | cleanup never changes the verdict, whether an error escapes, nor the steps' part of the log |
| InteractionV4.TimeoutRecheckEscapes | v4/ui_benchmark_analyzer.py:1123-1127 | an outcome of a reached step that times out and whose re-verification raises ends the interaction with no verdict and no cleanup |
| InteractionV4.StepEscapeFails | v4/ui_benchmark_analyzer.py:1123-1131 | a step that lets an error escape has timed out on an outcome, so it does not pass |
| ScoringV4.CategoryMax | v4/ui_benchmark_analyzer.py:256-263 | an unconfigured category's max is 0; a configured one is its base or, scaled with both desktop and mobile, twice it |
| ScoringV4.ConfiguredBases | v4/ui_benchmark_analyzer.py:45-56 | every configured base is positive; page-load and adherence details are unconfigured |
| ScoringV4.AddToRecordsLast | v4/ui_benchmark_analyzer.py:249-270 | the category of a technical finding exists afterwards and the finding, with its viewport, is its last detail |
| ScoringV4.AddToValid | v4/ui_benchmark_analyzer.py:249-269 | adding a finding keeps category names unique and moves the max total by exactly the max being fixed |
| ScoringV4.PromptScores.constructor | v4/ui_benchmark_analyzer.py:180-190 | an empty score sheet whose adherence max is the sum of configured points |
| ScoringV4.PromptScores.AddTechnical | v4/ui_benchmark_analyzer.py:237-269 | `_add_finding` updates the categories as `AddTo` and the technical max by `MaxGrowth`; adherence state unchanged |
| ScoringV4.PromptScores.EnterViewport | v4/ui_benchmark_analyzer.py:275-277 | the viewport becomes current; scores unchanged |
| ScoringV4.PromptScores.LoadFailed | v4/ui_benchmark_analyzer.py:284-293 | the "Page Load Errors" category ends with a 0/0 FAIL finding named "Page Completeness" on a timeout and "Driver Operation" on a driver error; the entry `Timeout at {viewport}` or `WebDriver error at {viewport}: {message}` is appended to the load errors; the technical max does not move |
| ScoringV4.PromptScores.CheckAdherence | v4/ui_benchmark_analyzer.py:747-819 | the adherence loop as `AdhereAll`: a check name pays only on its first positive pass |
| ScoringV4.AdhereLoop | v4/ui_benchmark_analyzer.py:755-817 | the loop over the checks ends at `AdhereAll`, and the earned total stays the sum of the points of the checks marked as paying, each of whose names is recorded as paid |
| ScoringV4.AdhereOne | v4/ui_benchmark_analyzer.py:805-817 | one check at one viewport: a first positive pass pays and records the name; a repeated pass records 0 points marked PASS; a failure records 0 with its status |
| ScoringV4.PromptScores.Report | v4/ui_benchmark_analyzer.py:1192-1214 | caps each category at its max, then reports; the capped total is within the technical max |
| ScoringV4.AdherePays | v4/ui_benchmark_analyzer.py:805-812 | paid names stay paid, and every check won in the pass ends up paid |
| ScoringV4.AdhereNothingNew | v4/ui_benchmark_analyzer.py:808-817 | when every winnable name is already paid, the loop earns nothing |
| ScoringV4.AdhereRepeatEarnsNothing | v4/ui_benchmark_analyzer.py:805-817 | re-running the same checks with the same verdicts at the same viewport earns nothing more |
| ScoringV4.AdhereDetailsAccount | v4/ui_benchmark_analyzer.py:810-817 | the recorded details account for exactly the points added to the adherence total |
| ScoringV4.MaskedWithinTotal | v4/ui_benchmark_analyzer.py:183 | with non-negative points, any subset of checks earns within the configured total |
| ScoringV4.PayOnce | v4/ui_benchmark_analyzer.py:810-812 | crediting a check not yet credited adds exactly its points |
| ScoringV4.AdherenceWithinMax | v4/ui_benchmark_analyzer.py:805-817 | with non-negative points, a prompt's adherence total never exceeds its max |
| ScoringV4.CapAll | v4/ui_benchmark_analyzer.py:1193-1197 | every category's earned is capped at its max; nothing else changes |
| ScoringV4.CapAllTotals | v4/ui_benchmark_analyzer.py:1193-1200 | capping keeps names and maxima and brings the earned total within the max total |
| ScoringV4.CappedWithin | v4/ui_benchmark_analyzer.py:1193-1199 | the capped total is within the max total and the uncapped total |
| ScoringV4.Percent | v4/ui_benchmark_analyzer.py:1208-1209 | 0 when the max is not positive; else p·max = earned·100, within [0, 100] for earned in [0, max] |
| ScoringV4.Weighted | v4/ui_benchmark_analyzer.py:1211-1214 | the 0.3/0.7 mix stays in [0, 100] and equals the common value when both parts agree |
| ScoringV4.ReportWithinBounds | v4/ui_benchmark_analyzer.py:1192-1214 | with adherence within max, the capped report's weighted score is in [0, 100] before rounding |
| ScoringV4.PlanViewports | v4/ui_benchmark_analyzer.py:1146-1185 | page-level checks run once, at the first loaded viewport; meta scored once; Lighthouse once per lower-cased name |
| ScoringV4.VisitViewport | v4/ui_benchmark_analyzer.py:1151-1178 | at one loaded viewport, page-level checks run only when no page-level flag is set, the desktop flag is set at a "desktop" viewport, and Lighthouse runs only for a name not yet flagged |
| ScoringV4.PlannedMeans | v4/ui_benchmark_analyzer.py:1146-1178 | the visit at each position, stated over the viewports that loaded before it |
| ScoringV4.FirstLoadUnique | v4/ui_benchmark_analyzer.py:1151-1161 | once a viewport has loaded, no later one is the first to load |
| ScoringV4.LighthouseOncePerName | v4/ui_benchmark_analyzer.py:1167-1178 | two loaded viewports whose names agree up to case do not both run Lighthouse |
| ScoringV4.TotalsSplit | v4/ui_benchmark_analyzer.py:1392-1429 | the totals of two batches of results are the field-wise sums of their totals |
| ScoringV4.TotalsOrderFree | v4/ui_benchmark_analyzer.py:1364-1429 | results arrive in completion order, and the totals do not depend on it |
| ScoringV4.FailureIgnored | v4/ui_benchmark_analyzer.py:1419 | a result whose status is not SUCCESS leaves the totals unchanged |
| ScoringV4.TotalsWithin | v4/ui_benchmark_analyzer.py:1419-1426 | when every successful prompt earned within its maxima, so do the totals |
| ScoringV4.Finish | v4/ui_benchmark_analyzer.py:1428-1445 | the analysed count is the scored count; no scored prompts gives average 0 |
| ScoringV4.Summarize | v4/ui_benchmark_analyzer.py:1392-1445 | the aggregation loop computes `Finish` of `TotalsOf` the results |
| ScoringV4.OverallWithinBounds | v4/ui_benchmark_analyzer.py:1437-1445 | with prompts within their maxima, the overall score is in [0, 100] before rounding |
| ColourV2.ParseColor | v2/main.py:58-84 | a 4-tuple never has alpha 0; empty and `transparent` give no colour |
| ColourV2.AgreesWithV4 | v2/main.py:58-84 | away from `#` forms, the second analyzer parses as the current one |
| ColourV2.HexIsTriple | v2/main.py:58-84 | `#rrggbb` gives a 3-tuple where the current analyzer gives an opaque 4-tuple |
| ColourV2.AsWalked | v2/main.py:107-133 | indexing alpha of a 3-tuple raises, just as a parse error does |
| ColourV2.EffectiveBackgroundRgb | v2/main.py:99-153 | the walk's loop computes exactly the specified background |
| ColourV2.WalkChain | v2/main.py:110-153 | the loop over the element and its ancestors ends with `Walk` of what is seen along the chain, from the fallback colour |
| ColourV2.VisitNode | v2/main.py:114-140 | one element: a parse error (or a 3-tuple, whose alpha cannot be read) ends the walk with an error, an opaque colour ends it blended under the layers so far, a colour with positive alpha is added as a layer, and html/body stops the walk there |
| ColourV2.WalkAgrees | v2/main.py:99-153 | without `#` colours, the walk gives what the current analyzer's walk gives |
| ColourV2.HexDocumentEscapes | v2/main.py:104-107 | a `#ffffff` document background makes the walk raise; the current analyzer falls back to it |
| ChecksV2.Scored | v2/main.py:886-1051 | a check's finding earns all of its points when it passed, none otherwise |
| ChecksV2.ScanOrder | v2/main.py:388-393 | the heading scan with its break decides exactly `OrderOk` |
| ChecksV2.CheckHeadings | v2/main.py:378-395 | H1 Count passes with exactly one visible h1; order passes with headings in accepted order; no headings fails both |
| ChecksV2.OrderDepthBound | v2/main.py:388-393 | in an accepted outline opening with h1, the i-th heading is at most h(i+1) |
| ChecksV2.H1FirstWhenPresent | v2/main.py:391 | a page with an h1 passes only if its first heading is an h1 |
| ChecksV2.PresencePasses | v2/main.py:886-901 | with `should_not_exist` passes iff not found; else iff found and shown |
| ChecksV2.PresenceAgainstV4 | v2/main.py:890-894 | the two analyzers differ only on a hidden element that should not exist |
| ChecksV2.AdjacentIsSorted | v2/main.py:954-959 | the neighbour test is exactly sortedness |
| ChecksV2.CheckOrder | v2/main.py:929-966 | the index scan decides exactly `OrderPasses` |
| ChecksV2.CountPasses | v2/main.py:903-926 | equals the current `_compare_counts` with `equals`, except that a lone max fails |
| ChecksV2.MaxAloneFails | v2/main.py:925-926 | a lone `max_count` fails even when met, where the current analyzer passes |
| ChecksV2.TextPasses | v2/main.py:968-989 | needs a displayed element; an unknown match type fails |
| ChecksV2.TextAsCaseSensitive | v2/main.py:979-982 | exact/contains decide as the current analyzer with `case_sensitive` |
| ChecksV2.SimilarAsCaseInsensitive | v2/main.py:983-984 | `similar` decides as the current analyzer without `case_sensitive` |
| ChecksV2.ExactImpliesContains | v2/main.py:979-982 | an exact match is also a contains match |
| ChecksV2.AttributePasses | v2/main.py:991-1016 | needs the element; a boolean is matched against presence; None asks for absence |
| ChecksV2.AttributeAsV4 | v2/main.py:1004-1011 | away from booleans and `class_contains`, as the current analyzer |
| ChecksV2.ClassContainsAsAny | v2/main.py:1008-1009 | `class_contains` with one name is the current `class_contains_any` |
| ChecksV2.FalseTextIsPresent | v2/main.py:1002-1003 | an attribute valued "false" counts as present here, absent in the current analyzer |
| ChecksV2.CssPasses | v2/main.py:1018-1051 | needs a displayed element and a value that could be read (a read that raises fails); a colour property passes iff both parse to colours with equal RGB, or neither parses to a colour and the raw texts are equal, and never when a parse raises; other properties compare stripped texts |
| ChecksV2.CssReflexive | v2/main.py:1032-1046 | a displayed value equal to the expected text passes unless a colour parse raises |
| ChecksV2.CssIgnoresAlpha | v2/main.py:1037-1039 | a translucent colour matches its opaque hex spelling |
| ChecksV2.OutcomePasses | v2/main.py:1082-1117 | a presence outcome without `selector_type` fails; otherwise `should_not_exist` passes iff absent, and else visibility must equal the expectation; an attribute outcome compares presence for a boolean and the `str` texts otherwise; other outcome types fail |
| ChecksV2.InteractionPasses | v2/main.py:1053-1128 | passes iff the trigger is shown, the action is click/hover and did not raise, and the outcome passes (so a presence outcome without `selector_type` fails) |
| ChecksV2.NoneOutcomeIsText | v2/main.py:1116-1117 | an expected None is compared as the text "None" |
| ScoringV2.TechnicalMaxIs105 | v2/main.py:42-54 | the fixed technical maximum is 105 points |
| ScoringV2.RecordTallied | v2/main.py:275-292 | recording keeps each category's earned and max equal to its findings' sums and adds the finding to the totals |
| ScoringV2.RecordAllTallied | v2/main.py:275-292 | the same for a list of findings |
| ScoringV2.RoundWithinMax | v2/main.py:846-883 | one adherence pass earns within what it records, which is within the configured total |
| ScoringV2.AdherencePaidPerViewport | v2/main.py:846-883 | a 10-point check passing at desktop and mobile earns 20 against a max of 10 |
| ScoringV2.AdherenceEarnedIsCategory | v2/main.py:1215-1217 | the adherence total is the earned of the single adherence category |
| ScoringV2.ReportShares | v2/main.py:1221-1228 | the overall max is 105 + adherence max; the percentage is the earned share, in [0, 100] when within max |
| ScoringV2.PerViewportCategoryDoubles | v2/main.py:1157-1214 | contrast at full marks on two viewports earns 30 against its 15-point share |
| ScoringV2.Scores.AddFinding | v2/main.py:275-292 | `_add_finding` records the finding, non-numbers read as 0 |
| ScoringV2.Scores.CheckAdherence | v2/main.py:846-883 | the adherence loop records `AdherenceFindings` |
| ScoringV2.Scores.GenerateReport | v2/main.py:1184-1228 | the report loop computes `ReportOf` the categories |
| ColourV1.ParseColor | v1/main.py:38-57 | empty and `transparent` give no colour |
| ColourV1.ParseDropsAlpha | v1/main.py:38-57 | apart from `#rrggbbaa`, reads every colour as the current parser does, less alpha |
| ColourV1.HexAlphaIgnored | v1/main.py:55 | `#rrggbbaa` is read as opaque (r, g, b), whatever its alpha |
| ColourV1.Layer | v1/main.py:76-85 | only an explicit four-component `rgba` carries a non-1 alpha into the walk |
| ColourV1.EffectiveBackgroundRgb | v1/main.py:71-99 | the walk's loop computes exactly the specified background |
| ColourV1.NoColourIsWhite | v1/main.py:97-99 | with no coloured node, the background is white |
| ColourV1.WalkPastBody | v1/main.py:92 | a transparent body does not stop the walk: a black html element is found |
| ColourV1.BodyDoesNotStop | v1/main.py:92 | where this walk finds html's black, the current analyzer stops at body and gives white |
| ScoringV1.PenaltyByCounts | v1/main.py:338-343 | the penalty is 2 per critical, 1 per serious and 0.5 per other violation |
| ScoringV1.PenaltyAppend | v1/main.py:338-343 | penalties add up over concatenated violation lists |
| ScoringV1.PenaltyAtLeastHalf | v1/main.py:341-343 | every violation costs at least 0.5 |
| ScoringV1.ScanViolations | v1/main.py:337-343 | the loop's penalty and counters are `Penalty` and the impact counts |
| ScoringV1.AxeEarned | v1/main.py:344 | `max(0, int(20 - penalty))`: 0 from a penalty of 20, else the floor of 20 − penalty |
| ScoringV1.AxeFindings | v1/main.py:326-347 | a 0/0 note then the violations finding, earning `AxeEarned` of the penalty; full and PASS iff none; FAIL iff critical or > 2 serious, else WARN |
| ScoringV1.CheckAxe | v1/main.py:326-347 | the check with its loop computes `AxeFindings` |
| ScoringV1.AxeMonotone | v1/main.py:338-344 | more violations never earn more; 40 or more earn nothing |
| ScoringV1.ViewportMetaFinding | v1/main.py:349-361 | no tag is 0 FAIL; locked zoom is 0 FAIL; otherwise 2 minus the missing directives, WARN iff one is missing |
| ScoringV1.InitialScaleAlternativeRedundant | v1/main.py:356 | the `initial-scale=1.0` alternative never changes the verdict |
| ScoringV1.MaximumScaleTenLocks | v1/main.py:357 | `maximum-scale=10` with initial and minimum scale 1 counts as locked zoom |
| ScoringV1.ByIdDistinct | v1/main.py:440-444 | keying by id keeps exactly the candidates' ids, each once, last one kept |
| ScoringV1.DedupById | v1/main.py:440-444 | the keying loop computes `ById` |
| ScoringV1.ToCheck | v1/main.py:444-447 | the first min(250, n) of the elements keyed by id |
| ScoringV1.ScanContrast | v1/main.py:456-487 | the loop's counters are `TallyOf` the elements |
| ScoringV1.ContrastResult | v1/main.py:488-490 | none checked is 0 FAIL; n AA failures earn max(0, 15 − 3·n) FAIL; otherwise 15 PASS |
| ScoringV1.ContrastMonotone | v1/main.py:489 | more AA failures never earn more; five or more earn nothing |
| ScoringV1.ContrastFindings | v1/main.py:437-490 | fetch error is 0/15 FAIL; no candidates is 15/15 INFO; otherwise an optional 0/0 count note (iff more than 250 ids) then the result of the tally over `ToCheck` |
| ScoringV1.CheckContrast | v1/main.py:398-490 | the check with its loops computes `ContrastFindings` |
| ScoringV1.ContrastTotals | v1/main.py:398-490 | the check always puts 15 points at stake and earns within [0, 15] |
| ScoringV1.RecordWithin | v1/main.py:207-215 | recording a finding within its max keeps all findings within theirs |
| ScoringV1.ReportWithin | v1/main.py:582-595 | with findings within their maxima, the overall score is in [0, max] and the percentage in [0, 100] |
| ScoringV1.ReportCountsEveryFinding | v1/main.py:582-585 | the report's totals are the sums over every finding recorded |
| ScoringV1.Scores.AddFinding | v1/main.py:207-215 | `_add_finding` adds the points to the category's earned and max |
| ScoringV1.Scores.GenerateReport | v1/main.py:576-602 | the report loop computes `ReportOf` the categories |
| Lexemes.HexPair | v4/ui_benchmark_analyzer.py:77 | Python's `int(ab, 16)`: defined exactly where Python accepts, two hex digits give 16a+b |
| Lexemes.FloatLexeme | v4/ui_benchmark_analyzer.py:86 | Python's `float` on digits and dots: non-negative, the integer for plain digits |
| Lexemes.KeepNumeric | v4/ui_benchmark_analyzer.py:625 | `re.sub(r'[^\d.]', '', s)` keeps only digits and dots, and nothing else changes them |
| Lexemes.MatchRgbaAlphaOf | v4/ui_benchmark_analyzer.py:83 | the `rgba` pattern captures the alpha group of `rgba(x,y,z,al)` |
| Lexemes.RgbIsNotRgba | v4/ui_benchmark_analyzer.py:83-89 | `rgb(` never matches the `rgba(` pattern |
| Site.Slugify | v4/benchmark_site_generator/generate_site.py:24-30 | the result is a lower-case slug (allowed characters, no double or edge dashes); empty stays empty |
| Site.SlugFixed | v4/benchmark_site_generator/generate_site.py:24-30 | a slug is a fixed point of `slugify` |
| Site.SlugifyIdempotent | v4/benchmark_site_generator/generate_site.py:24-30 | slugifying twice equals slugifying once |
| Site.PromptIdWords | v4/benchmark_site_generator/generate_site.py:32-36 | `P_w1_w2` displays as `w1 w2 (P)` |
| Site.PromptIdWithoutName | v4/benchmark_site_generator/generate_site.py:33-36 | an id with no name part displays as its prefix |
| Site.PromptIdExample | v4/benchmark_site_generator/generate_site.py:32-36 | `P001_red_button` displays as `red button (P001)` |
| Site.FormatDateTested | v4/benchmark_site_generator/generate_site.py:38-43 | an id not starting `run_` is `N/A` |
| Site.DateTestedOfRunId | v4/benchmark_site_generator/generate_site.py:38-42 | `run_YYYYMMDD-time` displays as `MM/DD/YYYY` |
| Site.DateTestedOtherwise | v4/benchmark_site_generator/generate_site.py:41-43 | a date part not 8 long returns the id unchanged |
| Site.FormatTimestamp | v4/benchmark_site_generator/generate_site.py:45-49 | shorter than 15 is `N/A`; otherwise 19 characters |
| Site.FormatTimeOnly | v4/benchmark_site_generator/generate_site.py:51-55 | the time part of the full display |
| Site.TimestampOfParts | v4/benchmark_site_generator/generate_site.py:45-55 | `YYYYMMDD-HHMMSS` displays as `MM/DD/YYYY HH:MM:SS` and `HH:MM:SS` |
| Site.GetBreadcrumbs | v4/benchmark_site_generator/generate_site.py:247-281 | every crumb URL starts with the root prefix, which is 0 to 3 `../` |
| Site.RunUrl | v4/benchmark_site_generator/generate_site.py:262 | the run crumb points, behind the prefix, at the path of that run's index page |
| Site.LatestModelUrl | v4/benchmark_site_generator/generate_site.py:269 | the latest-run model crumb points, behind the prefix, at the path of the model's page in the latest run, beside the run folders |
| Site.ArchivedModelUrl | v4/benchmark_site_generator/generate_site.py:275 | the archived model crumb points, behind the prefix, at the path of the model's page inside its run's folder |
| Site.ToRootClimbsToSiteRoot | v4/benchmark_site_generator/generate_site.py:247-281 | for every generated page, the prefix climbs exactly the directories the page lies in |
| Site.CrumbsLinkToPages | v4/benchmark_site_generator/generate_site.py:247-281 | every crumb on every page links to a page the generator writes |
| Site.Leaderboard | v4/benchmark_site_generator/generate_site.py:345-349 | the leaderboard is ordered by non-increasing score and is a permutation of the models |
| Site.Insert | v4/benchmark_site_generator/generate_site.py:345-349 | insertion adds exactly the one entry: the result is the old entries plus `x`, as a multiset |
| Site.InsertSorted | v4/benchmark_site_generator/generate_site.py:345-349 | inserting into a non-increasing leaderboard keeps it non-increasing |
| ScoreView.Contribution | v4/view_scores.py:66-72 | a bar is the weighted percentage, 0 without a positive max, within [0, 100·weight] |
| ScoreView.ParseSummary | v4/view_scores.py:52-72 | default name `UnknownModel`; missing scores read 0; the two bars add up to the weighted score of the totals |
| ScoreView.BarsAddUpToOverall | v4/view_scores.py:57-72 | read from an analyzer summary, the bars round to the stored overall score and lie within 30 and 70 |

## Left out

- The browser, Selenium, the local HTTP server, screenshots, file and JSON I/O, and process pools are left out. What the browser reports is an input to each check.
- Python dicts are modelled as lists in insertion order.
- Strings are ASCII-only: `lower()` maps only 'A' to 'Z', and `strip()`, `split()` and `\s` treat only the ASCII whitespace (including the separators 0x1C to 0x1F) as space. Likewise `\d` in `KeepNumeric` and the digit tests of `FloatLexeme` and `int(x, 16)` accept only '0' to '9', where Python also accepts other Unicode digits. Non-ASCII letters, spaces and digits are not covered.
- `round(x, 2)` is an uninterpreted function, and the float precision of `int(float(...))` is not modelled: arithmetic is on exact reals.
- The `contrast` library's ratio and its AA/AAA thresholds are uninterpreted predicates.
- `string_similarity` (difflib) and `re.search` on user patterns are uninterpreted.
- The HTML-structure, CSS-quality and scroll sub-checks take the browser's counts as inputs. Their selectors and scripts are not modelled.
- `format_config_name_display` is left out: `Path(...).name` depends on the host's path syntax.
- The site generator's page rendering and copying are left out. Only the helpers, the breadcrumbs, the page paths and the leaderboard order are modelled.
- `view_scores.py`'s file discovery, DataFrame and plotting are left out.
- The v1 and v2 orchestration (`run_all_checks`) and their Lighthouse and JavaScript checks are left out. Their effect on the totals is covered through `_add_finding` and the report.
- `_execute_action_on_element` and `_perform_setup_cleanup_action` are left out: each succeeds or raises, which is an input to the interaction model.
- The timestamp formatters' `except IndexError` branches are left out: slicing a Python string never raises `IndexError`.
- The slug and display helpers are modelled on strings only. A `None`, a non-string `run_id`, or a breadcrumb call without a run id is not modelled.
- The v1 analyzer's `AttributeError` on a viewport tag without `content` is not modelled.
- Site.Leaderboard: the contract does not state the stability of Python's sort. Entries with equal scores keep their relative order by construction of `Insert`, but no lemma proves it.
- ScoringV4.PlanViewports: Lighthouse is modelled as available or not for the whole prompt. The local-server failure is folded into the Lighthouse run's outcome.
- ScoringV1.ContrastFindings: the per-element 0/0 "Contrast Failure (AA)" and "Contrast Suboptimal (AAA)" detail findings are not produced. They carry no points, so the totals are unaffected.
- TechnicalV4.ContrastFinding: the per-element style fetch, placeholder text and font-size parsing are inputs. Only the counting and the result are modelled. The model also does not cover an `is_displayed()` call that raises while the candidates are filtered (v4/ui_benchmark_analyzer.py:591). That error skips the per-element handler and reaches the viewport-level one.
- Lexemes.HexPair: models `int(a + b, 16)` on two characters, including Python's acceptance of a sign or surrounding space. Underscores between digits are outside two-character inputs.

## Findings

| source | as written | input that shows it | evidently intended | confidence | as-written member | corrected member |
|---|---|---|---|---|---|---|
| v2/main.py:846-883 | adherence points are added at every viewport where a check passes | one 10-point check with no viewport filter, passing at desktop and mobile: 20 earned against a max of 10 | a check pays its points once per prompt | not executed | ScoringV2.AdherencePaidPerViewport | ScoringV4.AdherenceWithinMax |
| v2/main.py:1157-1214 | contrast and scroll findings accumulate per viewport while the technical max stays at a fixed 105 | contrast at full marks at desktop and mobile: the category earns 30 against its 15-point share | the max scales with the viewports a category is scored at, and earned is capped at the max | not executed | ScoringV2.PerViewportCategoryDoubles | ScoringV4.ReportWithinBounds |
| v2/main.py:58-84,104-107 | `#` colours parse to 3-tuples, and the walk reads their alpha as `[3]` | document background `#ffffff`: `IndexError` before the walk starts | hex colours carry alpha 1.0, so the walk falls back to the document colour | not executed | ColourV2.HexDocumentEscapes | ColourV4.EffectiveBackgroundIsWalk |
| v4/ui_benchmark_analyzer.py:1025-1031 | `element_exists` with `expected_visibility` re-enters `_verify_single_outcome` with `{"outcome_type": "visibility_change", **outcome_el_config, **outcome_config}`, where the outcome's own `element_exists` type wins the merge | any `element_exists` outcome with `expected_visibility: "visible"` whose target is displayed: the call recurses until the recursion limit raises, and the outcome fails | the visibility is decided by the `visibility_change` check | not executed | ChecksV4.ExistsWithVisibilityNeverHolds | ChecksV4.ExistsIntended |
