# Life Wheel assessment — a Dafny model

The Life Wheel page (`src/pages/Home.tsx`) lets a user rate life dimensions from 1 to 10 and add
three notes to each. The user can add and remove dimensions, enter a name, an age and an expected
lifespan, and generate a report. The report gives:

- a balance level, derived from the mean rating;
- the strengths and the areas for improvement;
- an action plan and reading and course suggestions for each weak dimension;
- a benchmark table for the user's age group.

Generating a report also starts a once-a-second countdown of the time left until the expected end
of life.

This project models the non-visual core of that page and proves what it promises. It has eight
modules, one per file:

- `Results` (`results.dfy`): `Option`, `Outcome` and `Result`.
- `Seqs` (`seqs.dfy`): `Array.prototype.filter` and `map` on sequences, with their algebra.
- `Text` (`text.dfy`): `String.prototype.trim` over the ECMAScript whitespace code points.
- `Dimensions` (`dimensions.dfy`):
  - the dimension record and the eight defaults;
  - the store's updates as pure functions: add, remove, set rating, set note;
  - the store invariant: never empty, distinct ids and names, ratings 1..10, three notes;
  - lemmas that every update keeps that invariant.
- `Lookups` (`lookups.dfy`): the static tables behind a report. These are `generateActionPlans`, `getImprovementResources` and `getAgeBenchmark`, each with its fallback.
- `Report` (`report.dfy`): the validation, the balance band, strengths and areas, and the report record.
- `Countdown` (`countdown.dfy`):
  - JavaScript's truncating `%`;
  - the split of a millisecond difference into days, hours, minutes and seconds;
  - `calculateRemainingTime`.
- `Assessment` (`assessment.dfy`): the component itself as a class. Its fields are the page's state plus `timerRef`. It also holds a small model of the browser's interval scheduler: the set of live intervals and the next handle. Every handler is a method with a `modifies` frame, and the timer discipline is a class invariant.

The class keeps two invariants:

- `WellFormed(dimensions)`: the list is never empty, and ids and names are distinct.
- `TimerDiscipline()`: at most one interval is live, and it is the one `timerRef` holds.

Each handler states its new state through the pure functions of the other modules. The
properties of those functions are proved as lemmas beside them.

Modelling choices:

- The mean rating is compared as an exact rational in `MeanBand`. The report uses the equivalent comparison of the rating sum with a multiple of the count (`BalanceOf`). `BalanceIsMeanBand` proves the two agree.
- An empty list has no mean (NaN in JavaScript). No comparison with it succeeds, so it falls in the lowest band.
- `Math.floor(x / c)` with a positive constant `c` is Dafny's `/`, which rounds down. JavaScript's `%` is `JsRem`, whose remainder takes the sign of the dividend.
- Age and lifespan are `Option<int>`. An empty input is `None`.
- `generateId` becomes a `freshId` parameter that is required not to be in use.
- The wall clock becomes a `diffMs` parameter: the milliseconds the page subtracts on each tick. As written, that is the time from now to local midnight of today's date, (lifespan − age) years on (`DiffRecomputed`). The target is rebuilt on every tick, so it moves forward a day at each local midnight; see "## Findings". `UpdateCountdown`, `Tick` and `GenerateReport` take whichever difference the caller supplies; the intended one is `DiffFixed` against a target fixed at generation.
- Removal looks the id up before checking the length. An unknown id is ignored silently, even when only one dimension is left.

## Model

| member | source | states |
|---|---|---|
| Text.Trim | src/pages/Home.tsx:321-333 | the result is the input with its leading and trailing whitespace removed: it sits in the input after a whitespace prefix and before a whitespace suffix, it is empty exactly when the input is all whitespace, and otherwise it neither starts nor ends with whitespace |
| Text.TrimStart | src/pages/Home.tsx:321 | the result is a suffix of the input, everything cut off is whitespace, and it does not start with whitespace |
| Text.TrimEnd | src/pages/Home.tsx:321 | the result is a prefix of the input, everything cut off is whitespace, and it does not end with whitespace |
| Text.TrimIdempotent | src/pages/Home.tsx:326-333 | trimming a stored (already trimmed) name again changes nothing |
| Seqs.Filter | src/pages/Home.tsx:355 | the filtered list is no longer than the input and every element kept passes the test |
| Seqs.FilterMembership | src/pages/Home.tsx:355 | what is kept comes from the input, and every element that passes is kept |
| Seqs.FilterAppend | src/pages/Home.tsx:452-457 | filtering distributes over concatenation, so relative order is kept |
| Seqs.FilterDropsOne | src/pages/Home.tsx:355 | when exactly one element fails, filtering removes just that index |
| Seqs.MapAppend | src/pages/Home.tsx:236-275 | mapping distributes over concatenation |
| Dimensions.Defaults | src/pages/Home.tsx:15-72 | there are eight default dimensions |
| Dimensions.DefaultsWellFormed | src/pages/Home.tsx:15-72 | the defaults meet the store invariant and carry the eight names in order; entry i has id i + 1, rating 5 and three empty notes |
| Dimensions.WellFormed | src/pages/Home.tsx:6-12 | the store invariant the handlers keep: the list is non-empty, ids and names are distinct, every rating is in 1..10 and every entry has three notes |
| Dimensions.NewDimension | src/pages/Home.tsx:331-337 | a new dimension has a rating the slider can show and three notes |
| Dimensions.Add | src/pages/Home.tsx:320-342 | a blank name is refused, a name equal after trimming to an existing one is refused, and otherwise exactly one entry is appended: the old list is its prefix and the new entry has the trimmed name, an empty help text, rating 5 and three empty notes |
| Dimensions.AddKeepsWellFormed | src/pages/Home.tsx:320-342 | with a fresh id, an accepted add keeps the list non-empty with distinct ids and names |
| Dimensions.AddedNameIsTrimmed | src/pages/Home.tsx:326-333 | the stored name is its own trim, so the duplicate check compares trimmed names with trimmed names |
| Dimensions.AddAgainRefused | src/pages/Home.tsx:326-329 | after a name is added, any input that trims to the same name is refused as a duplicate |
| Dimensions.WithoutId | src/pages/Home.tsx:355 | no entry left has the id, and every entry left was in the list |
| Dimensions.Remove | src/pages/Home.tsx:345-357 | an unknown id is refused and so is removing from a list of length one; otherwise the result is the list without that id |
| Dimensions.RemoveDropsOne | src/pages/Home.tsx:355 | with distinct ids, removal drops exactly the entry at the id's index and keeps the rest in order |
| Dimensions.RemoveKeepsWellFormed | src/pages/Home.tsx:345-357 | an accepted remove shortens the list by one and keeps the invariant, so the list is never empty |
| Dimensions.SetRating | src/pages/Home.tsx:299-303 | length kept; the entries with the id get the new rating; every other field of every entry and every other entry is unchanged |
| Dimensions.SetRatingKeepsWellFormed | src/pages/Home.tsx:698-703 | a rating from the slider's range 1..10 keeps the invariant |
| Dimensions.SetNote | src/pages/Home.tsx:306-317 | length kept; note `index` of the entries with the id becomes the text; all other notes, fields and entries are unchanged |
| Dimensions.SetNoteKeepsWellFormed | src/pages/Home.tsx:711-717 | editing one of the three note inputs keeps the invariant |
| Lookups.Steps | src/pages/Home.tsx:242-266 | a plan text is never empty |
| Lookups.PlanText | src/pages/Home.tsx:239-267 | every dimension name gets a non-empty plan text |
| Lookups.PlanTextFallback | src/pages/Home.tsx:265-266 | a name outside the eight defaults gets the generic plan |
| Lookups.PlanQuote | src/pages/Home.tsx:273 | the quote is exactly the fixed opening sentence, then the dimension's name, then the fixed closing phrase |
| Lookups.PlanEntry | src/pages/Home.tsx:236-274 | the entry names its dimension, and it has a non-empty plan exactly when the rating is 4 or lower |
| Lookups.ActionPlans | src/pages/Home.tsx:235-276 | `generateActionPlans`: one entry per dimension, then only those with a non-empty plan are kept. `ActionPlansOfLowRated` and `ActionPlansFacts` state its properties |
| Lookups.ActionPlansOfLowRated | src/pages/Home.tsx:235-276 | mapping every dimension to an entry and keeping those with a plan equals building one entry per dimension rated 4 or lower, in list order |
| Lookups.ActionPlansFacts | src/pages/Home.tsx:235-276 | one plan per low-rated dimension, in order, naming it, with its non-empty plan text and its quote, and the generic plan for an unknown name |
| Lookups.Books | src/pages/Home.tsx:186-221 | three books for each of the eight known names, two for any other name |
| Lookups.Courses | src/pages/Home.tsx:186-221 | three courses for each of the eight known names, two for any other name |
| Lookups.ResourceOf | src/pages/Home.tsx:224-228 | the entry pushed for one dimension: its name, its books and its courses. `ResourcesFacts` states the counts |
| Lookups.Resources | src/pages/Home.tsx:178-232 | one entry per given dimension |
| Lookups.ResourcesFacts | src/pages/Home.tsx:178-232 | each entry names its dimension, in order, with three books and three courses for a known name and two of each otherwise |
| Lookups.Table | src/pages/Home.tsx:129-170 | a table has eight entries |
| Lookups.AgeBenchmark | src/pages/Home.tsx:124-175 | every age bucket yields eight entries |
| Lookups.AgeBenchmarkFacts | src/pages/Home.tsx:124-175 | whatever the age, the benchmark lists the eight default names in order, with averages between 1 and 10 |
| Report.Validate | src/pages/Home.tsx:398-406 | an empty name, age or lifespan is refused first; otherwise an age not below the lifespan is refused; otherwise the accepted information carries the inputs and age < lifespan |
| Report.RatingSum | src/pages/Home.tsx:433 | the `reduce` that adds up the ratings. `SumOfConstant` and `MeanAtLeast` state its properties |
| Report.Mean | src/pages/Home.tsx:433 | the average rating: the sum divided by the count, for a non-empty list |
| Report.MeanBand | src/pages/Home.tsx:436-440 | the level chain on the mean: 8 and above, 6 and above, 4 and above, otherwise |
| Report.BalanceOf | src/pages/Home.tsx:436-440 | the same chain as whole-number comparisons of the sum with 8, 6 and 4 times the count. `BalanceBands` and `BalanceIsMeanBand` state its properties |
| Report.MeanAtLeast | src/pages/Home.tsx:433-440 | the mean reaches a whole threshold exactly when the sum reaches threshold times count |
| Report.BalanceBands | src/pages/Home.tsx:436-440 | exactly one band applies: S >= 8n, 6n <= S < 8n, 4n <= S < 6n, or otherwise (including n = 0) |
| Report.BalanceIsMeanBand | src/pages/Home.tsx:433-440 | the sum-and-count band equals the band of the mean; an empty list gets the lowest band |
| Report.Label | src/pages/Home.tsx:436-440 | the label is one of the four level names |
| Report.LabelInjective | src/pages/Home.tsx:436-440 | two levels get the same label exactly when they are the same level |
| Report.LabelBands | src/pages/Home.tsx:433-440 | the label shown is 优秀 exactly when S >= 8n with n > 0, 良好 when 6n <= S < 8n, 一般 when 4n <= S < 6n, and 需要改善 when n = 0 or S < 4n |
| Report.Strengths | src/pages/Home.tsx:452-454 | the names of the dimensions rated 8 or higher, in list order. `StrengthsMembership` states its properties |
| Report.AreasForImprovement | src/pages/Home.tsx:455-457 | the names of the dimensions rated 4 or lower, in list order. `AreasMembership` states its properties |
| Report.StrengthsMembership | src/pages/Home.tsx:452-454 | a name is a strength exactly when a dimension with that name is rated 8 or higher |
| Report.AreasMembership | src/pages/Home.tsx:455-457 | a name is an improvement area exactly when a dimension with that name is rated 4 or lower |
| Report.StrengthsAreasDisjoint | src/pages/Home.tsx:452-457 | with distinct names, no name is both a strength and an improvement area |
| Report.ClassifyAppend | src/pages/Home.tsx:452-457 | both lists follow list order: appending a dimension appends its name to the list it belongs to |
| Report.StrengthsWeakDisjointCount | src/pages/Home.tsx:452-457 | strengths and areas together are no more than the dimensions |
| Report.BuildReport | src/pages/Home.tsx:446-471 | the report record: sum and count, level, a copy of the list, strengths, areas, personal information, plans, benchmark and resources for the weak dimensions. `ReportConsistent` states its properties |
| Report.ReportConsistent | src/pages/Home.tsx:443-470 | a report keeps the dimensions and personal information, and has one non-empty plan and one resource entry per improvement area, in the same order. Its benchmark has eight entries, and strengths and areas are disjoint when names are distinct |
| Report.AllDefaultRatings | src/pages/Home.tsx:433-469 | with every rating at 5 the level is fair and there are no strengths, areas, plans or resources |
| Report.InitialReport | src/pages/Home.tsx:15-72 | a report on the untouched defaults has the fair level and no strengths, areas, plans or resources |
| Report.SumOfConstant | src/pages/Home.tsx:433 | the sum of n equal ratings k is k times n |
| Countdown.JsRem | src/pages/Home.tsx:383-385 | the remainder is below the divisor in magnitude, has the dividend's sign, and differs from it by a multiple of the divisor |
| Countdown.Decompose | src/pages/Home.tsx:381-385 | the split of a millisecond difference: floor division for days, and for each smaller unit the JavaScript remainder by the next larger unit, divided down. `DecomposeExact` and `DecomposeMonotone` state its properties |
| Countdown.DecomposeExact | src/pages/Home.tsx:381-385 | for d >= 0, hours < 24, minutes < 60, seconds < 60, and days·86400000 + hours·3600000 + minutes·60000 + seconds·1000 = d − d mod 1000 |
| Countdown.UnitStep | src/pages/Home.tsx:382-385 | each step of the split leaves a count below the unit ratio plus the remainder by the smaller unit |
| Countdown.LexLeIsMsOrder | src/pages/Home.tsx:381-385 | on in-range readings, lexicographic order is the order of the time they stand for |
| Countdown.DecomposeMonotone | src/pages/Home.tsx:381-385 | a smaller non-negative difference never gives a later reading |
| Countdown.DiffRecomputed | src/pages/Home.tsx:376-381 | the difference a tick computes against a target rebuilt from today's date always lies within the last day of the span: above (span − 1) days and at most span days |
| Countdown.MidnightJump | src/pages/Home.tsx:376-385 | with the rebuilt target, the tick one second before local midnight reads (span − 1 days, 0, 0, 1 s) and the tick at midnight reads (span days, 0, 0, 0), a later reading |
| Countdown.FixedTargetNeverRises | src/pages/Home.tsx:373-394 | against a target fixed when the report is generated, a later tick never shows a later reading, midnight included |
| Countdown.RemainingFromAges | src/pages/Home.tsx:360-370 | whole years give 365 days per year and zero hours, minutes and seconds |
| Countdown.ModOfMultiplePlus | src/pages/Home.tsx:381-385 | Euclidean division is unique |
| Assessment.Truthy | src/pages/Home.tsx:417 | `if (timerRef.current)`: a handle counts only when it is present and not zero |
| Assessment.HasBlankNote | src/pages/Home.tsx:408-410 | some note of some dimension is empty after trimming |
| Assessment.LifeWheelAssessment.TimerDiscipline | src/pages/Home.tsx:290 | under the discipline at most one interval is live |
| Assessment.LifeWheelAssessment.constructor | src/pages/Home.tsx:279-291 | the default dimensions, no report, empty personal information with lifespan 80, a zero countdown, no timer; the invariant holds |
| Assessment.LifeWheelAssessment.EditPersonalInfo | src/pages/Home.tsx:593-617 | the three inputs store what was entered |
| Assessment.LifeWheelAssessment.EditNewDimensionName | src/pages/Home.tsx:649 | the input stores what was typed |
| Assessment.LifeWheelAssessment.HandleRatingChange | src/pages/Home.tsx:299-303 | the list becomes `SetRating` of the old list and stays well formed |
| Assessment.LifeWheelAssessment.HandleDescriptionChange | src/pages/Home.tsx:306-317 | the list becomes `SetNote` of the old list and stays well formed |
| Assessment.LifeWheelAssessment.AddDimension | src/pages/Home.tsx:320-342 | on acceptance the list is `Add`'s result and the input is cleared. On refusal the error is reported and neither the list nor the input changes. The list stays well formed |
| Assessment.LifeWheelAssessment.RemoveDimension | src/pages/Home.tsx:345-357 | on acceptance the list is `Remove`'s result; on refusal it is unchanged; it stays well formed and non-empty |
| Assessment.LifeWheelAssessment.SetInterval | src/pages/Home.tsx:421 | a new live interval under a handle not handed out before |
| Assessment.LifeWheelAssessment.ClearInterval | src/pages/Home.tsx:418 | the interval stops being live |
| Assessment.LifeWheelAssessment.UpdateCountdown | src/pages/Home.tsx:373-394 | with age or lifespan missing, or age not below lifespan, the reading is kept; otherwise it is the split of the difference |
| Assessment.LifeWheelAssessment.Tick | src/pages/Home.tsx:421 | only a live interval fires, and a firing refreshes the reading as `updateCountdown` does |
| Assessment.LifeWheelAssessment.GenerateReport | src/pages/Home.tsx:396-483 | invalid information is refused and the timer, countdown and report are left unchanged. Otherwise: the blank-note warning is raised exactly when some note is blank, the old interval is gone, the one new interval is the one `timerRef` holds, the countdown is refreshed, and the stored report is `BuildReport` of the current list and information, shown |
| Assessment.LifeWheelAssessment.RestartTimer | src/pages/Home.tsx:417-421 | any running interval is cleared before the new one starts, so exactly the new interval is live and `timerRef` holds it |
| Assessment.LifeWheelAssessment.PublishReport | src/pages/Home.tsx:473-475 | the report is stored and shown |
| Assessment.LifeWheelAssessment.HandleSubmit | src/pages/Home.tsx:554-556 | the report section is shown |
| Assessment.LifeWheelAssessment.ResetAssessment | src/pages/Home.tsx:559-572 | the defaults, no report, empty information with lifespan 80, no live interval and no handle. The new-name input and the last reading stay as they were. The invariant holds |
| Assessment.LifeWheelAssessment.StopTimer | src/pages/Home.tsx:568-571 | the running interval, if any, is cleared and the handle dropped |
| Assessment.LifeWheelAssessment.RestoreDefaults | src/pages/Home.tsx:560 | the list is the defaults and is well formed |
| Assessment.LifeWheelAssessment.Unmount | src/pages/Home.tsx:486-492 | after unmounting no interval is live |

## Findings

| source | as written | input that shows it | evidently intended | confidence | as-written member | corrected member |
|---|---|---|---|---|---|---|
| src/pages/Home.tsx:376-381 | every tick rebuilds the expected end of life from today's month and day, so the target is local midnight of today's date and moves forward a day at each midnight | the tick one second before local midnight and the tick at midnight, with the same remaining years: the reading goes from (K − 1 days, 0 h, 0 min, 1 s) up to (K days, 0, 0, 0) | a countdown that never goes up: the target fixed once, each tick showing the time left until it | high (not executed) | Countdown.MidnightJump | Countdown.FixedTargetNeverRises |

## Left out

- `toast` messages are not modelled as text. Each refusal is an error value and leaves the state unchanged.
- The report's save to `localStorage`, the JSON download and the clipboard share are browser I/O and are not modelled.
- The correlation table, the life quotes and `generateColors` are driven by `Math.random` or are string formatting. They are not modelled.
- `generateId` draws a random id. It is replaced by the `freshId` parameter, which is required not to collide with an id in use.
- `new Date()`, the birth and death dates, and `toLocaleString` are not modelled. `UpdateCountdown`, `Tick` and `GenerateReport` take the millisecond difference as a parameter.
- Countdown.DiffRecomputed: local days are whole 86400000 ms blocks and the span in days is a parameter, so time zones, daylight saving and leap days are not modelled.
- The report's `timestamp`, `formattedDate`, `correlations` and `lifeQuote` fields are not part of the `Report` datatype.
- `averageRating.toFixed(1)` is not stored. The report keeps the rating sum and count, and the band is decided by exact comparison.
- Report.BalanceOf: the mean is compared as an exact rational, not as a binary floating-point quotient. A correctly rounded quotient of a sum below 8n by n can round up to 8 only when n is above about 10^15, far beyond any list the page can hold.
- `parseInt` of the age and lifespan inputs is not modelled. The inputs are `Option<int>`, with `None` for an empty field.
- The interval's callback closes over the `updateCountdown` of the render that created it. `Tick` refreshes from the current fields instead.
- The generate button is rendered only while no report has been generated. `GenerateReport` can be called in any state.
- `Assessment.LifeWheelAssessment.HandleRatingChange` requires a rating in 1..10, the range of the slider that is its only caller.
- `Assessment.LifeWheelAssessment.HandleDescriptionChange` requires an index below 3, because the note inputs are rendered for the three notes only.
- `calculateRemainingTime` is unused by the page. It is modelled as `RemainingFromAges` but not called by the class.
- All rendering, the charts, scrolling and the deploy button are not modelled.
