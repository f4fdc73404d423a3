# Night-shift rota search, modelled in Dafny

The `schedule` handler of `main.py` takes a list of doctors, a date range, a
holiday list, nightly headcounts and a number of attempts `find`, and
searches for a fair night-shift rota:

- it lists the nights of the period and gives each a point weight
  (holiday 2, Saturday 1.5, Sunday 2, otherwise 1);
- each of `find` trials walks the nights, excludes the doctors among the
  most recent `n - ceil(n/3)` shifts, and samples that night's headcount
  from the doctors who remain;
- stage 1 keeps the trials with the smallest spread of points
  (max - min over all doctors), ties retained in trial order;
- stage 2 scores each kept schedule by the spread of its shift counts,
  the spread of its weekend-shift counts and the summed variance of each
  doctor's day-of-month spacing, and keeps the smallest totals the same
  way;
- the first optimal schedule is grouped by date, its dates written
  YYYY-MM-DD (the calendar date extended format of section 5.2.1.1 of
  ISO 8601:2004), its points recomputed from zero, and the result named
  "Schedule" plus a uuid with spaces and hyphens removed.

The model follows the code's own shape:

- The loops stay loops: the day list, the weight table, the trial
  loop, the shift statistics, both selection stages, the grouping, the
  key rendering and the points recomputation.
- The trial's state (`schedule`, `points`, `shifts`) is a class whose
  `AssignShift` method changes it in place.
- The pure parts are functions: date parsing, max/min, spreads, spacing
  variances and the stage-2 total.
- Each method is proved against a specification function. The
  properties the handler promises are lemmas about those functions.

Modules, one per file:

| file | module | content |
|---|---|---|
| `wrappers.dfy` | `Wrappers`, `Errors` | `Option`, `Result`, and the exceptions the handler can end with |
| `calendar.dfy` | `Calendar` | proleptic Gregorian dates, ordinals, weekdays, strptime/strftime for `%Y-%m-%d`, the day list and the weights |
| `fields.dfy` | `Fields` | `split`, `strip`, `replace`, the holiday field and the schedule name |
| `rota.dfy` | `Rota` | the trial state, the cooldown window, `random.sample` and one trial |
| `fairness.dfy` | `Fairness` | max/min spreads, `calculate_shift_stats`, spacing variances and the stage-2 total |
| `selection.dfy` | `Selection` | the replace/append selection rule, stage 1 and stage 2 |
| `scheduler.dfy` | `Scheduler` | grouping, rendering, points recomputation, request parsing and the handler |

Behaviours of the code worth noting:

- An end date before the start date gives empty trials, every one with
  spread 0. Stage 2 then raises at line 156 (`max()` of an empty dict),
  so the request fails with `NoShifts`; it does not return an empty
  result.
- With no optimal schedule (`find <= 0`) the handler raises a NameError
  at line 195; it returns no empty-result value.
- Spacing differences are taken in schedule order, which is date order.
  Across a month boundary a difference is negative. The day-of-month
  values are not sorted.

Numbers:

- Point weights are integer half-points (2, 3, 4, 2). This is exact,
  because 1.5 and its sums are exact in binary floating point.
- The stage-1 key is the half-point spread halved, as a `real`.
- Stage-2 totals are exact `real`s. A variance is computed as the integer
  sum of `(n*x - total)^2` over `n^3`. `Fairness.VarianceOfMean` proves
  this equal to the mean of the squared distances from the mean.

## Model

| member | source | states |
|---|---|---|
| Calendar.ParseDate | main.py:36-37 | a string strptime accepts with `%Y-%m-%d` yields a valid date (year 1-9999, month 1-12, day within the month) |
| Calendar.ParseFormat | main.py:36-37 | parsing the YYYY-MM-DD text of a valid date gives that date back |
| Calendar.FormatInjective | main.py:194-196 | distinct valid dates are written as distinct YYYY-MM-DD keys |
| Calendar.Weekday | main.py:84-86 | `weekday()` lies in 0..6 |
| Calendar.WeekdayStep | main.py:72-74 | the day after a date that is not 9999-12-31 falls on the next weekday, modulo 7 |
| Calendar.NextDayStep | main.py:74 | adding one day fails exactly at 9999-12-31; otherwise it gives the valid date whose ordinal is one more |
| Calendar.AtMostByOrdinal | main.py:72 | `current_date <= end_date` compares ordinals |
| Calendar.OrdinalInjective | main.py:72-74 | two valid dates with the same ordinal are the same date |
| Calendar.DayRange | main.py:70-74 | the loop lists every date from start to end once, in ascending order, and none when end precedes start; it fails with an overflow exactly when the period ends on 9999-12-31 |
| Calendar.InPeriod | main.py:70-74 | a valid date is in the day list exactly when it lies between start and end inclusive |
| Calendar.PeriodAscending | main.py:70-74 | consecutive entries of the day list are consecutive days, strictly ascending |
| Calendar.Weight | main.py:82-89 | a holiday weighs 2 even on a Saturday; otherwise Saturday weighs 1.5 and Sunday 2; all other days weigh 1; every weight is positive |
| Calendar.PointsPerDay | main.py:79-89 | the loop gives the dict exactly the listed days as keys, each holding its weight |
| Fields.Split | main.py:66 | `split(",")` gives at least one part, none containing the separator |
| Fields.JoinSplit | main.py:66 | joining the parts of a split with the separator gives the input back |
| Fields.SplitJoin | main.py:61 | splitting the join of separator-free parts gives the parts back |
| Fields.Strip | main.py:57 | the stripped text is a contiguous slice of the input, everything before and after it is whitespace, and it neither starts nor ends with whitespace |
| Fields.StripEmpty | main.py:57-60 | the stripped field is empty exactly when the field is all whitespace |
| Fields.ParseAll | main.py:61 | every part parses and the list holds their dates in order, or the first part that does not parse raises |
| Fields.ParseHolidays | main.py:57-63 | a blank field gives no holidays; otherwise the result is that of parsing every comma-separated part of the stripped field: one valid date per part, and a `BadDate` error exactly when some part does not parse |
| Fields.RemoveChar | main.py:204-205 | `replace(c, "")` leaves no `c` |
| Fields.RemoveCharKeeps | main.py:204-205 | `replace(c, "")` keeps every other character with its multiplicity |
| Fields.RemoveCharConcat | main.py:204-205 | `replace(c, "")` distributes over concatenation |
| Fields.RemoveCharAbsent | main.py:204-205 | `replace(c, "")` on text without `c` changes nothing |
| Fields.ScheduleName | main.py:202-205 | the schedule name holds no space and no hyphen |
| Fields.UuidDigits | main.py:202-205 | removing the hyphens of a canonical uuid leaves its five hex groups joined |
| Fields.ScheduleNameOfUuid | main.py:202-205 | for a canonical uuid the name is "Schedule" followed by its 32 hex digits, 40 characters in all |
| Rota.Trial.constructor | main.py:119-121 | a trial starts with an empty schedule and history, and 0 points for every doctor |
| Rota.Trial.AssignShift | main.py:97-100 | one triple appended, one `(day-of-month, doctor)` appended to the history, that doctor's points raised by the weight, no other doctor's changed |
| Rota.PointsOfAppend | main.py:99 | a doctor's points after a triple are the points before, plus the triple's weight when it is theirs |
| Rota.CooldownBounds | main.py:126 | the look-back `int(n - ceil(n/3))` is below `n`, and 0 only for a single doctor |
| Rota.Window | main.py:126 | `shifts[-k:]` is the last `k` entries, and the whole history when `k` is 0 or at least its length |
| Rota.Available | main.py:127 | a doctor remains exactly when listed and not excluded |
| Rota.AvailableNoDup | main.py:127 | distinct doctors leave distinct remaining doctors |
| Rota.Sample | main.py:128 | `random.sample` raises exactly when the count is negative or exceeds the pool; otherwise it gives that many picks taken from distinct places of the pool |
| Rota.DrawNoDup | main.py:128 | picks from a pool of distinct names are distinct |
| Rota.DrawProperties | main.py:126-128 | a night's picks number its headcount, are listed doctors outside the cooldown window, and are distinct when the doctors are |
| Rota.SlotCount | main.py:122-131 | the triples of a trial number the sum of the headcounts the zip reaches |
| Rota.ExpandWeights | main.py:122-124 | every triple lies on a night the zip reaches and carries that night's weight |
| Rota.DrawsExtend | main.py:122-131 | drawing one more night appends that night's row of triples and keeps every earlier draw valid |
| Rota.FillNight | main.py:131 | one row of triples for the night's picks, appended in pick order, the trial state staying consistent |
| Rota.RunTrial | main.py:118-131 | every night drawn from the pool its history leaves; on success the schedule has one triple per slot, each doctor's points are the sum of their weights; a draw that cannot be made ends the trial with `SampleTooLarge` |
| Fairness.MaxOf | main.py:134 | `max` is an element at least every element |
| Fairness.MinOf | main.py:135 | `min` is an element at most every element |
| Fairness.SpreadBounds | main.py:134-137 | max - min is non-negative, bounds every pairwise difference, is reached by one pair, and is 0 exactly when all values are equal |
| Fairness.ColumnRange | main.py:134-135 | `max` and `min` of a dict's values are the values of two listed keys and bound the value of every listed key |
| Fairness.ColumnOrderFree | main.py:134-135 | `max`, `min` and their difference depend only on which keys the dict holds, not on the order `.values()` yields them |
| Fairness.PointSpreadOfSchedule | main.py:119-137 | a trial's spread is the spread of the points its triples earn, a doctor holding no triple counting 0; it is non-negative |
| Fairness.PointsOfAbsent | main.py:119-120 | a doctor who holds no triple keeps the 0 points the trial started with |
| Fairness.WeekendPartMembers | main.py:109 | a triple is in the weekend part exactly when it is in the schedule and falls on a Saturday or Sunday |
| Fairness.DoctorsListed | main.py:103-107 | the defaultdict's keys are the doctors with a shift, each once, and none for an empty schedule |
| Fairness.CountsStep | main.py:107 | one increment keeps the tally equal to the counts of the triples seen |
| Fairness.ShiftStats | main.py:102-111 | the two tallies hold, in first-appearance order, the shift count and the weekend-shift count of every doctor who has one |
| Fairness.WeekendCount | main.py:109-110 | a doctor's weekend count is at most their shift count, and positive exactly when they work a Saturday or Sunday |
| Fairness.DayNumbers | main.py:162 | one day-of-month per shift of the doctor |
| Fairness.Diffs | main.py:164 | `np.diff` is one shorter than its input |
| Fairness.ScaledDeviationsZero | main.py:168 | the scaled squared deviations are non-negative, and 0 exactly when every value equals the mean |
| Fairness.VarianceZero | main.py:168 | `np.var` is non-negative, and 0 exactly when all gaps are equal |
| Fairness.VarianceOfMean | main.py:168 | the integer form of the variance equals `np.var`'s definition: the sum of the squared distances from the mean, divided by the count |
| Fairness.SpacingNonNegative | main.py:159-171 | the summed spacing variance is non-negative |
| Fairness.SpacingTotal | main.py:160-171 | the loop sums the variances of the doctors with two or more shifts |
| Fairness.Stage2Parts | main.py:153-174 | a scorable schedule's total is the sum of three non-negative parts: spacing, shift spread and weekend spread |
| Fairness.Stage2ScoreOfTallies | main.py:153-174 | the total computed from the defaultdicts equals the total defined from the schedule |
| Fairness.TalliesEmpty | main.py:156-157 | a tally is empty exactly when its schedule part is, which is when `max()` raises |
| Fairness.TotalDifference | main.py:153-174 | from the two tallies, the spreads and the summed variances give the stage-2 total of the schedule |
| Fairness.ScoreSchedule | main.py:153-174 | scoring succeeds exactly for schedules with a shift and a weekend shift, gives the stage-2 total, and otherwise raises at line 156 or line 157 |
| Selection.Best | main.py:140-144 | there is a best key exactly when there is a key |
| Selection.BestMinimal | main.py:140-144 | the best key is one of the keys and at most every key |
| Selection.TiesIndices | main.py:143-144 | the ties of a value are the items at strictly ascending positions whose key is that value, and every such position is among them |
| Selection.TiesMembers | main.py:143-144 | every tie carries the value, every item carrying it is a tie, and ties exist exactly when some key equals it |
| Selection.SurvivorsMinimal | main.py:139-144 | survivors exist exactly when items do, each carries a minimal key, and every item with a minimal key survives |
| Selection.TiesAbsent | main.py:143-144 | a value no key carries has no ties |
| Selection.TiesAppend | main.py:143-144 | one more item joins the ties exactly when its key equals the value |
| Selection.KeepStep | main.py:139-144 | a smaller key replaces the kept list, an equal one appends, a larger one is discarded, and each keeps best and survivors of the run so far |
| Selection.Keep | main.py:139-144 | one step of the replace/append rule keeps the best key and the survivors of the candidates seen |
| Selection.Select | main.py:176-182 | the rule over a whole run leaves the smallest key and exactly the candidates reaching it, in order |
| Selection.TrialOf | main.py:118-131 | a finished trial is tallied, holds one triple per slot on listed nights with their weights, and is the expansion of valid draws, one per night; a failed trial failed at the first night whose headcount is negative or exceeds the doctors its history leaves |
| Selection.DrawsRespectCooldown | main.py:126-128 | each night of a valid draw holds its headcount of listed doctors, none in the look-back window of the triples before it, all distinct when the doctors are |
| Selection.FeasibleAppend | main.py:118-144 | appending a feasible trial keeps all trials feasible |
| Selection.StageOne | main.py:113-144 | all `find` trials are feasible; `best_difference` is the minimum spread and `best_schedules` exactly the trials reaching it, in trial order; a failing draw ends the run before `find` trials, with the night whose headcount cannot be drawn |
| Selection.ScoreAll | main.py:152-174 | every kept schedule is scored to its stage-2 total, or the first one that cannot be scored raises |
| Selection.StageTwo | main.py:147-182 | `optimal_schedules` is exactly the kept schedules with minimal total, `score` that minimum, or the first unscorable schedule raises |
| Scheduler.DaysListed | main.py:185-191 | the grouped keys are the schedule's dates, each once |
| Scheduler.DaysValid | main.py:185-191 | every grouped key is a date of the schedule |
| Scheduler.GroupedSizes | main.py:185-191 | the groups together hold every triple exactly once |
| Scheduler.GroupStep | main.py:188-191 | one triple through the loop body keeps the groups equal to those of the triples seen |
| Scheduler.GroupByDay | main.py:185-191 | keys in first-appearance order; each date holds its `(doctor, points)` pairs in schedule order |
| Scheduler.RenderKeys | main.py:193-196 | one distinct YYYY-MM-DD key per date, holding that date's group |
| Scheduler.RecomputePoints | main.py:198-200 | every doctor's points are the sum of their triples' weights, starting from 0 |
| Scheduler.TalliedUnique | main.py:198-200 | the recomputed points equal the points the winning trial accumulated |
| Scheduler.Prepare | main.py:48-66 | failures in source order: the start date, the end date, a missing uniform headcount over a non-empty period, then the holidays' `BadDate`; no other failure; a parsed request holds the parsed dates and holidays, the split doctor names, and uniform headcounts of one entry per night |
| Scheduler.Assemble | main.py:184-205 | the answer presents the winner: its dates grouped and rendered, its tallies, its points, the score and the name |
| Scheduler.Search | main.py:113-195 | no optimal schedule exactly when `find <= 0`; any other failure is a night that cannot be drawn or the first survivor stage 2 cannot score; otherwise the winner is the first optimal survivor, drawn by one of the feasible trials, with the minimal total as score |
| Scheduler.TrialFits | main.py:122-131 | a feasible trial names only listed doctors on valid dates |
| Scheduler.Answer | main.py:68-205 | overflow, then a missing per-night dict, then the search's outcome, in that order; a search failure is one of the three the search allows, and a success presents the search's winner |
| Scheduler.Schedule | main.py:48-205 | the whole handler: the order of its failures, each later failure one the search allows, and on success an answer presenting the first optimal schedule of feasible trials, with the points its trial accumulated |

## Left out

- The FastAPI app, CORS middleware, pydantic input model and routes (lines 15-46) are transport. Their fields become the `Request` datatype.
- The SQLite table and the JSON serialisation (lines 206-217) are I/O. The `shift_difference` stored there comes from the last schedule stage 2 iterated, not from the winner, and it is not modelled.
- `random.sample` and `uuid.uuid4` (lines 128, 202) become inputs: a stream `rand: nat -> nat` drives a partial Fisher-Yates draw, and the uuid is a string. No distribution is modelled.
- `pd.date_range` (line 116) is taken to give the same nights as the day loop. Its Timestamp range (years 1677-2262) is not modelled.
- `strptime` is modelled for ASCII digits only. It accepts one- or two-digit month and day fields and four-digit years. Non-ASCII digits are not modelled.
- `strftime` zero-padding of years below 1000 is taken as four digits.
- Floats become exact values. `float('inf')` sentinels become `Option`. `np.var` and the float equality at line 181 become exact `real` arithmetic. Weights become half-point integers.
- `MAX_POINTS_DIFFERENCE` (line 67) and `data_json` (line 95) are never used by the search.
- Skill grades, per-grade quotas and absence dates do not appear in `main.py`.
- Selection.StageTwo: modelled as two passes, scoring every kept schedule and then selecting. The source interleaves them, but a scoring failure ends the request either way, so the outcome is the same.
- Scheduler.RecomputePoints: requires every triple to name one of the doctors. `points[doctor] += ...` (line 199) would raise KeyError otherwise, but every triple's doctor is drawn from the doctor list.
- Scheduler.Answer: the keys of `num_doctors_per_night` are ignored; only the values, in dict order, become headcounts (line 77), as in the source.
- Scheduler.Prepare: `int(num_doctors)` (line 55) raises only when the uniform range is non-empty. A missing headcount with an empty range is accepted.
