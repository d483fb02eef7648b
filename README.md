# golden-vibes fitness dashboard: rollups, mutators, easter egg

A Dafny model of the computational core of a personal fitness dashboard.
The dashboard stores workouts, body metrics (weight, body fat), journal
entries, goals and sleep/heart-rate samples from an Oura ring. It derives a
few rollups from them and serves them through small read/write endpoints.
The model covers:

- **Rollup engine** (`lib/calculations.ts`), module `Calculations`. It covers
  the weekly training streak and the count of workouts in the last N days.
  It also covers the 30-day weight and body-fat trends, rounded to a tenth,
  the 7-day sleep average, rounded to a tenth, and the 7-day resting-heart-rate
  mean, rounded to an integer.
  `getWeekStart` lives in module `Calendar`. The streak is an imperative
  method, `CalculateStreak`: a loop tallies workouts per Monday-start week in
  a map, then a second loop walks back one week at a time. The method is
  proved equal to the function `Streak`, and the dashboard uses that function.
- **Dashboard aggregation** (`app/api/dashboard/route.ts`), module `Dashboard`.
  It builds the snapshot from the rollups and adds to each goal its
  `progress` and its three-band `status`.
- **Collection mutators**, one module per route: `WorkoutsRoute`,
  `BodyMetricsRoute`, `JournalRoute` and `GoalsRoute`. The JSON files form a
  `Store` object with one sequence field per file. Each handler is a method
  that may change only the field it writes back.
- **Konami-code matcher** (`script.js`), module `Konami`. `Step` is one key;
  class `Matcher` holds the global index.
- **Tag toggle** (`halo/app/journal/page.tsx`), module `Tags`.

Modelling conventions:

- A date is a whole day number counted from 1970-01-01, and
  `Weekday(d) = (d + 4) % 7` numbers the days as `Date.getDay` does
  (0 = Sunday).
- "Now" is the parameter `today`. A record id is a parameter of each `POST`.
- Measurements are exact reals. `Math.round(x)` is `floor(x + 1/2)`.
  `Number(x.toFixed(1))` rounds |x| to the nearest tenth, a tie going up, and
  then restores the sign, as ECMAScript specifies.
- The source sorts before it reduces. This is modelled as a stable insertion
  sort by date (`Seqs.SortBy`). Lemmas prove that the sort changes no count
  and no sum.
- Shared helpers sit in `Seqs` (filter, count, sum, sort), `Numeric` (the
  two roundings) and `Wrappers` (`Option`, `Result`).

## Model

| member | source | states |
|---|---|---|
| `Calendar.WeekStart` | lib/calculations.ts:44-49 | the week start of `d` is a Monday and lies 0 to 6 days before `d` |
| `Calendar.WeekStartUnique` | lib/calculations.ts:44-49 | any Monday 0 to 6 days before `d` is the week start of `d`, so the Monday-normalisation is determined |
| `Calendar.WeekStartOfSunday` | lib/calculations.ts:47 | a Sunday maps back six days |
| `Calendar.WeekStartIdempotent` | lib/calculations.ts:44-49 | normalising a week start again changes nothing |
| `Calendar.WeekStartShift` | lib/calculations.ts:34 | seven days earlier is exactly one week start earlier |
| `Calculations.RunFrom` | lib/calculations.ts:27-38 | the backward walk ends, and each counted week uses three workouts of its own: 3·n plus the workouts already passed is at most the total |
| `Calculations.RunFromCharacterised` | lib/calculations.ts:27-38 | the walk counts a run of qualifying weeks and stops at the first week with fewer than three workouts |
| `Calculations.StreakCharacterised` | lib/calculations.ts:4-41 | the streak is n iff the n weeks ending with today's week each hold at least 3 workouts and the week before them does not |
| `Calculations.StreakZeroWhenCurrentWeekShort` | lib/calculations.ts:24-38 | if today's week has fewer than 3 workouts, the streak is 0 whatever earlier weeks hold |
| `Calculations.Streak` | lib/calculations.ts:4-41 | the streak is a run of qualifying weeks ending with today's week, the week before the run does not qualify, and 3·streak is at most the number of workouts |
| `Calculations.WeekCountStep` | lib/calculations.ts:16-21 | adding one workout raises the tally of its own week by one and no other tally |
| `Calculations.CalculateStreak` | lib/calculations.ts:4-41 | the imperative tally-and-walk returns `Streak`: a maximal run of qualifying weeks ending with today's week, bounded by \|workouts\|/3 |
| `Calculations.WorkoutsInPeriod` | lib/calculations.ts:52-57 | the count is at most the number of workouts |
| `Calculations.WorkoutsInPeriodCons` | lib/calculations.ts:52-57 | the count includes a workout exactly when its day is on or after today − days; at day granularity the cutoff day counts (see "## Left out" for the source's time of day) |
| `Calculations.WorkoutsInPeriodMonotone` | lib/calculations.ts:52-57 | a longer period never counts fewer workouts |
| `Calculations.CalculateTrend` | lib/calculations.ts:60-74 | the trend is null iff no metric of the last 30 days has the field; otherwise it is a whole number of tenths |
| `Calculations.TrendBounds` | lib/calculations.ts:65-73 | if every value in the window lies in [lo, hi], the trend lies in [toFixed1(lo), toFixed1(hi)] |
| `Calculations.TrendExample` | lib/calculations.ts:60-74 | weights 180 (today) and 182 (yesterday) give a trend of 181.0 |
| `Calculations.TrendOrderIndependent` | lib/calculations.ts:65-73 | reordering the metrics, and so the sort, does not change the trend |
| `Calculations.TrendIgnoresOutside` | lib/calculations.ts:65-66 | metrics older than 30 days or without the field do not change the trend |
| `Calculations.CalculateSleepAverage` | lib/calculations.ts:77-90 | the sleep average is null iff no sample lies in the 7-day window; otherwise it is a whole number of tenths |
| `Calculations.CalculateRHRTrend` | lib/calculations.ts:93-106 | the resting-heart-rate mean is null iff no sample lies in the 7-day window |
| `Calculations.SleepAverageBounds` | lib/calculations.ts:77-90 | sleep values in [lo, hi] give a sleep average in [toFixed1(lo), toFixed1(hi)] |
| `Calculations.RHRTrendBounds` | lib/calculations.ts:93-106 | heart rates in [lo, hi] give a mean in [round(lo), round(hi)] |
| `Calculations.RHRTrendOfConstant` | lib/calculations.ts:93-106 | if every heart rate in a non-empty window is the integer v, the result is v |
| `Calculations.AverageOrderIndependent` | lib/calculations.ts:82-89 | reordering the samples, and so the sort, changes neither 7-day mean |
| `Calculations.AverageIgnoresOutside` | lib/calculations.ts:82-83 | samples older than 7 days change neither 7-day mean |
| `Calculations.MeanBetween` | lib/calculations.ts:72-73 | the mean of a non-empty window lies between bounds on its values |
| `Seqs.SortBy` | lib/calculations.ts:67 | the sort returns a permutation of its input, in ascending order of the key |
| `Seqs.SumByPermutation` | lib/calculations.ts:72 | the reducing sum does not depend on the order of its input |
| `Seqs.CountPermutation` | lib/calculations.ts:8-10 | sorting the workouts first does not change any count |
| `Numeric.RoundHalfUp` | lib/calculations.ts:105 | `Math.round` gives the integer within half a unit, a tie going up |
| `Numeric.Tenths` | lib/calculations.ts:73 | the number of tenths is within half a unit of 10·x, a tie going away from zero |
| `Numeric.ToFixed1` | lib/calculations.ts:73 | `toFixed(1)` gives a whole number of tenths within 0.05 of the value, a tie going away from zero |
| `Numeric.ToFixed1Monotone` | lib/calculations.ts:73 | rounding to a tenth keeps the order of two values |
| `Dashboard.GoalProgress` | app/api/dashboard/route.ts:33-35 | progress is the percentage current/target·100 rounded to the nearest integer when target > 0, and 0 otherwise |
| `Dashboard.StatusOf` | app/api/dashboard/route.ts:40 | completed iff progress ≥ 100, on-track iff 75 ≤ progress < 100, off-track otherwise |
| `Dashboard.GoalExamples` | app/api/dashboard/route.ts:32-42 | target 0 gives 0 and off-track; 100 of 100 gives completed; 76 gives on-track; 74 gives off-track |
| `Dashboard.AnnotateGoal` | app/api/dashboard/route.ts:32-42 | the goal keeps every field, progress is `GoalProgress` and status its `StatusOf` band; a target ≤ 0 gives 0 % and off-track; otherwise completed iff the unrounded percentage is at least 99.5, off-track iff below 74.5 |
| `Dashboard.BuildDashboard` | app/api/dashboard/route.ts:18-43 | each field of the snapshot is its own rollup: the 7- and 30-day counts, the streak, the weight and body-fat trends, the sleep average and the resting-heart-rate mean; thisWeek ≤ thisMonth ≤ \|workouts\|; 3·streak ≤ \|workouts\|; the goals keep length and order, each goal annotated with every field kept |
| `Dashboard.DashboardOfEmpty` | app/api/dashboard/route.ts:18-31 | an empty collection sends its own part to 0, null or []: counts and streak to 0, trends and averages to null, goals to []; the other parts stay their own rollups, as `BuildDashboard` states |
| `WorkoutsRoute.Post` | halo/app/api/workouts/route.ts:13-34 | the new workout has the supplied id, source "manual" and the body's date, type, duration and note; the stored list is the new workout followed by the old list, unchanged |
| `BodyMetricsRoute.Post` | app/api/body-metrics/route.ts:13-33 | the new metric has the supplied id, source "manual" and the body's date, weight and body fat; the stored list is the new metric followed by the old list, unchanged |
| `JournalRoute.Post` | app/api/journal/route.ts:13-32 | the new entry has the supplied id, date and content, and the supplied tags or []; the stored list is the new entry followed by the old list, unchanged |
| `GoalsRoute.Post` | halo/app/api/goals/route.ts:13-37 | the new goal has the supplied id and every field of the body; the stored list is the old list followed by the new goal |
| `GoalsRoute.FindIndex` | halo/app/api/goals/route.ts:44 | the result is the first position holding the id, and none iff no goal has it |
| `GoalsRoute.Merge` | halo/app/api/goals/route.ts:49 | each field the patch supplies overwrites the goal's; every other field keeps its prior value |
| `GoalsRoute.MergeNothing` | halo/app/api/goals/route.ts:49 | a patch that supplies only the goal's own id leaves the goal unchanged |
| `GoalsRoute.MergeIdempotent` | halo/app/api/goals/route.ts:49 | applying the same patch twice gives the same goal as applying it once |
| `GoalsRoute.Put` | halo/app/api/goals/route.ts:39-56 | an unknown id gives NotFound and leaves the stored list as it was; otherwise only the first goal with the id is replaced by the merge, and the response is the stored updated goal |
| `Konami.Step` | script.js:158-168 | a key matching the code at the index advances it; any other key resets it to 0; activation happens iff the index was 9 and the key is "a", and resets the index to 0 |
| `Konami.Matcher.constructor` | script.js:156 | the index starts at 0 |
| `Konami.Matcher.KeyDown` | script.js:158-168 | the listener follows `Step`, keeps 0 ≤ index < 10, and after an activation the last ten keys are exactly the code |
| `Konami.Run` | script.js:155-168 | over a run of keydowns, a non-empty run leaves 0 ≤ index < 10, and 10·activations + final index ≤ starting index + number of keys |
| `Konami.RunRestOfCode` | script.js:155-164 | from index i, the rest of the code fires exactly one activation and returns to 0 |
| `Konami.CodeActivatesOnce` | script.js:155-164 | from a fresh start, the ten-key code fires exactly one activation |
| `Konami.ThreeArrowUpsReset` | script.js:165-167 | a mismatching key resets to 0 even when it is the first code key: three ArrowUps leave index 0, and an extra leading ArrowUp spoils the code |
| `Tags.ToggleTag` | halo/app/journal/page.tsx:69-76 | after the toggle the tag is present iff it was absent, and every other tag keeps its number of occurrences |
| `Tags.ToggleAbsentAppends` | halo/app/journal/page.tsx:74 | an absent tag is appended at the end |
| `Tags.TogglePresentRemovesAll` | halo/app/journal/page.tsx:73 | a present tag loses every copy; the other tags keep their order; the length drops by the number of copies |
| `Tags.ToggleTwiceRestores` | halo/app/journal/page.tsx:69-76 | toggling an absent tag twice gives back the original list |

## Left out

- Persistence (`readData`/`writeData`, lib/data.ts:6-25) is left out. This
  covers the JSON text, the `[]` returned when a file is missing or corrupt,
  and a failed write, which the handlers turn into a 500 response. Each
  collection is a field of `Store`.
- JavaScript `Date` semantics are not modelled: local time against UTC, parsing
  of date strings, daylight-saving shifts in the millisecond step of
  lib/calculations.ts:34, and the `toISOString` week keys. Each date is a day
  number, and the week key is the day number of its Monday.
- The period cutoff of lib/calculations.ts:53-56, 62-66, 79-83 and 95-99 is
  `new Date()` moved back by `days` with `setDate`, so it keeps the current
  time of day, while a date-only string parses to midnight UTC. A record
  dated exactly today − days therefore normally fails the source's `>=` and
  is dropped, but the model, which works in whole days, counts it. This
  affects `WorkoutsInPeriod`, `CalculateTrend` and both 7-day means.
- Floating point is not modelled: the means and percentages use exact reals.
- Ids from `Date.now()` and their uniqueness are left out. The id is a parameter.
- Request parsing is left out. Each body is a typed input record, so the model
  does not say what happens when a required field is missing (the source stores
  `undefined`) or when a JSON `null` is supplied. `GoalPatch` has one optional
  slot per goal field. Unknown fields in a `PUT` body, which the spread also
  copies, are not modelled.
- The `GET` handlers that only return a collection are left out, along with HTTP
  status codes and response wrapping.
- The coach route, the rest of `script.js`, every React page and component,
  and the goals page's status texts are outside this model.
- The lost-update race between concurrent handlers is not modelled. The model
  has a single writer.
- `Calculations.TrendBounds`: bounds the rounded trend by the rounded bounds,
  not by the minimum and maximum themselves, because rounding can leave that
  range: two values of 1.04 average to 1.04, which rounds to 1.0. The exact
  bound on the unrounded mean is `Calculations.MeanBetween`.
- `Calculations.SleepAverageBounds`: bounds the result by the rounded bounds,
  for the same reason.
- `Calculations.RHRTrendBounds`: bounds the result by the rounded bounds,
  for the same reason.
- The handlers validate nothing in the body, and the model does not add any
  validation.
