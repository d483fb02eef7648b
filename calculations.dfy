/** The rollup engine of lib/calculations.ts: the weekly training streak,
    the count of workouts in a recent period, and the recent means of body
    metrics, sleep and resting heart rate. "Today" is a parameter. */
module Calculations {
  import opened Wrappers
  import opened Calendar
  import opened Records
  import opened Seqs
  import opened Numeric

  // ---------------------------------------------------------------------------
  // Weekly streak
  // ---------------------------------------------------------------------------

  const MinWorkoutsPerWeek := 3

  /** Holds of a workout that falls in the week beginning on `week`. */
  function InWeek(week: Day): Workout -> bool
  {
    (w: Workout) => WeekStart(w.date) == week
  }

  /** The number of workouts in the week beginning on `week`. */
  function WeekCount(ws: seq<Workout>, week: Day): nat
  {
    Count(ws, InWeek(week))
  }

  /** A week that holds enough workouts to extend a streak. */
  predicate Qualifies(ws: seq<Workout>, week: Day)
  {
    WeekCount(ws, week) >= MinWorkoutsPerWeek
  }

  /** The Monday `n` weeks before the Monday `week`. */
  function WeeksBefore(week: Day, n: int): Day
  {
    week - 7 * n
  }

  /** The `n` consecutive weeks ending with the one that begins on `week`
      each qualify. */
  predicate QualifyingRun(ws: seq<Workout>, week: Day, n: nat)
  {
    forall j :: 0 <= j < n ==> Qualifies(ws, WeeksBefore(week, j))
  }

  /** Holds of a workout whose week begins after `from` and on or before `top`:
      the weeks the backward walk from `top` has already passed. */
  function InWeeksAfter(from: Day, top: Day): Workout -> bool
  {
    (w: Workout) => from < WeekStart(w.date) <= top
  }

  /** The number of workouts in the weeks already passed. */
  function PassedCount(ws: seq<Workout>, week: Day, top: Day): nat
  {
    Count(ws, InWeeksAfter(week, top))
  }

  /** Stepping back one week adds the workouts of the week just left. */
  lemma PassedCountGrows(ws: seq<Workout>, week: Day, top: Day)
    requires week <= top
    ensures PassedCount(ws, week - 7, top) >= PassedCount(ws, week, top) + WeekCount(ws, week)
  {
    CountDisjoint(ws, InWeeksAfter(week - 7, top), InWeeksAfter(week, top), InWeek(week));
  }

  /** The number of consecutive qualifying weeks walking back from `week`,
      which lies on or before the walk's starting week `top`. Each week
      counted uses up at least three workouts not yet passed, so the walk
      ends. */
  function RunFrom(ws: seq<Workout>, week: Day, top: Day): (n: nat)
    requires week <= top
    ensures MinWorkoutsPerWeek * n + PassedCount(ws, week, top) <= |ws|
    decreases |ws| - PassedCount(ws, week, top)
  {
    if !Qualifies(ws, week) then 0
    else
      PassedCountGrows(ws, week, top);
      1 + RunFrom(ws, week - 7, top)
  }

  /** The walk counts exactly a maximal run of qualifying weeks. */
  lemma {:induction false} RunFromCharacterised(ws: seq<Workout>, week: Day, top: Day)
    requires week <= top
    ensures QualifyingRun(ws, week, RunFrom(ws, week, top))
    ensures !Qualifies(ws, WeeksBefore(week, RunFrom(ws, week, top)))
    decreases |ws| - PassedCount(ws, week, top)
  {
    if Qualifies(ws, week) {
      PassedCountGrows(ws, week, top);
      RunFromCharacterised(ws, week - 7, top);
      var n := RunFrom(ws, week - 7, top);
      forall j | 0 <= j < n + 1 ensures Qualifies(ws, WeeksBefore(week, j)) {
        if j > 0 {
          assert WeeksBefore(week, j) == WeeksBefore(week - 7, j - 1);
        }
      }
      assert WeeksBefore(week, n + 1) == WeeksBefore(week - 7, n);
    } else {
      assert WeeksBefore(week, 0) == week;
    }
  }

  /** `calculateStreak`: the number of consecutive weeks, ending with the
      week that contains `today`, that each hold at least three workouts. */
  function Streak(ws: seq<Workout>, today: Day): (n: nat)
    ensures QualifyingRun(ws, WeekStart(today), n)
    ensures !Qualifies(ws, WeeksBefore(WeekStart(today), n))
    ensures MinWorkoutsPerWeek * n <= |ws|
  {
    if |ws| == 0 then
      assert WeekCount(ws, WeeksBefore(WeekStart(today), 0)) == 0;
      0
    else
      RunFromCharacterised(ws, WeekStart(today), WeekStart(today));
      RunFrom(ws, WeekStart(today), WeekStart(today))
  }

  /** The streak is `n` exactly when the `n` weeks ending with the current
      one each hold at least three workouts and the week before them does not. */
  lemma StreakCharacterised(ws: seq<Workout>, today: Day, n: nat)
    ensures Streak(ws, today) == n <==>
      QualifyingRun(ws, WeekStart(today), n) && !Qualifies(ws, WeeksBefore(WeekStart(today), n))
  {
    var start := WeekStart(today);
    if |ws| == 0 {
      assert forall k :: !Qualifies(ws, k);
      if n > 0 {
        assert !Qualifies(ws, WeeksBefore(start, 0));
      }
    } else {
      RunFromCharacterised(ws, start, start);
      var s := Streak(ws, today);
      if n < s {
        assert Qualifies(ws, WeeksBefore(start, n));
      } else if s < n {
        assert !QualifyingRun(ws, start, n) by {
          assert !Qualifies(ws, WeeksBefore(start, s));
        }
      }
    }
  }

  /** An incomplete current week ends the streak before it starts, whatever
      the earlier weeks hold. */
  lemma StreakZeroWhenCurrentWeekShort(ws: seq<Workout>, today: Day)
    requires WeekCount(ws, WeekStart(today)) < MinWorkoutsPerWeek
    ensures Streak(ws, today) == 0
  {
    StreakCharacterised(ws, today, 0);
    assert WeeksBefore(WeekStart(today), 0) == WeekStart(today);
  }

  /** `weeks.get(key) || 0`. */
  function Lookup(weeks: map<Day, nat>, key: Day): nat
  {
    if key in weeks then weeks[key] else 0
  }

  /** Growing a prefix by one workout adds it to the count of its own week only. */
  lemma WeekCountStep(ws: seq<Workout>, i: nat, week: Day)
    requires i < |ws|
    ensures WeekCount(ws[..i + 1], week) ==
      WeekCount(ws[..i], week) + (if WeekStart(ws[i].date) == week then 1 else 0)
  {
    assert ws[..i + 1] == ws[..i] + [ws[i]];
    CountAppend(ws[..i], [ws[i]], InWeek(week));
  }

  /** `calculateStreak`: sorts the workouts newest first, tallies them per
      Monday-start week in a map, then walks back from the current week while
      each week holds at least three workouts. */
  method CalculateStreak(workouts: seq<Workout>, today: Day) returns (streak: nat)
    ensures streak == Streak(workouts, today)
    ensures QualifyingRun(workouts, WeekStart(today), streak)
    ensures !Qualifies(workouts, WeeksBefore(WeekStart(today), streak))
    ensures MinWorkoutsPerWeek * streak <= |workouts|
  {
    if |workouts| == 0 {
      StreakCharacterised(workouts, today, 0);
      return 0;
    }

    var sorted := SortBy(workouts, (w: Workout) => -w.date);

    // Group workouts by week.
    var weeks: map<Day, nat> := map[];
    var i := 0;
    while i < |sorted|
      invariant 0 <= i <= |sorted|
      invariant forall k :: Lookup(weeks, k) == WeekCount(sorted[..i], k)
    {
      var weekKey := WeekStart(sorted[i].date);
      forall k ensures WeekCount(sorted[..i + 1], k) ==
        WeekCount(sorted[..i], k) + (if weekKey == k then 1 else 0)
      {
        WeekCountStep(sorted, i, k);
      }
      ghost var before := weeks;
      weeks := weeks[weekKey := Lookup(weeks, weekKey) + 1];
      assert forall k :: Lookup(weeks, k) == Lookup(before, k) + (if weekKey == k then 1 else 0);
      i := i + 1;
    }
    assert sorted[..i] == sorted;
    forall k ensures Lookup(weeks, k) == WeekCount(workouts, k) {
      CountPermutation(sorted, workouts, InWeek(k));
    }

    // Check the streak from the current week backwards.
    var top := WeekStart(today);
    streak := 0;
    var checkDate := top;
    while true
      invariant checkDate <= top
      invariant streak + RunFrom(workouts, checkDate, top) == Streak(workouts, today)
      decreases RunFrom(workouts, checkDate, top)
    {
      var workoutsInWeek := Lookup(weeks, checkDate);
      if workoutsInWeek >= MinWorkoutsPerWeek {
        streak := streak + 1;
        checkDate := checkDate - 7;
      } else {
        break;
      }
    }
    StreakCharacterised(workouts, today, streak);
  }

  // ---------------------------------------------------------------------------
  // Workouts in a period
  // ---------------------------------------------------------------------------

  /** Holds of a workout dated on or after `cutoff`. */
  function OnOrAfter(cutoff: Day): Workout -> bool
  {
    (w: Workout) => w.date >= cutoff
  }

  /** `getWorkoutsInPeriod`: the number of workouts dated on or after
      `today - days`. */
  function WorkoutsInPeriod(ws: seq<Workout>, days: int, today: Day): (n: nat)
    ensures n <= |ws|
  {
    Count(ws, OnOrAfter(today - days))
  }

  /** Record by record: a workout adds one exactly when it is dated on or
      after the cutoff, the cutoff day itself included. */
  lemma WorkoutsInPeriodCons(w: Workout, ws: seq<Workout>, days: int, today: Day)
    ensures WorkoutsInPeriod([], days, today) == 0
    ensures WorkoutsInPeriod([w] + ws, days, today) ==
      WorkoutsInPeriod(ws, days, today) + (if w.date >= today - days then 1 else 0)
  {
    CountAppend([w], ws, OnOrAfter(today - days));
  }

  /** A longer period never counts fewer workouts. */
  lemma WorkoutsInPeriodMonotone(ws: seq<Workout>, shorter: int, longer: int, today: Day)
    requires shorter <= longer
    ensures WorkoutsInPeriod(ws, shorter, today) <= WorkoutsInPeriod(ws, longer, today)
  {
    CountMonotone(ws, OnOrAfter(today - shorter), OnOrAfter(today - longer));
  }

  // ---------------------------------------------------------------------------
  // Means over a recent window
  // ---------------------------------------------------------------------------

  /** The mean of a non-empty window lies between bounds on its values. */
  lemma MeanBetween<T>(s: seq<T>, f: T -> real, lo: real, hi: real)
    requires |s| > 0
    requires forall x :: x in s ==> lo <= f(x) <= hi
    ensures lo <= SumBy(s, f) / |s| as real <= hi
  {
    SumByBounds(s, f, lo, hi);
    var n := |s| as real;
    var a := SumBy(s, f);
    assert (a - n * lo) / n == a / n - lo;
    assert (n * hi - a) / n == hi - a / n;
  }

  /** Re-sorting a window keeps its members. */
  lemma SortedMembers<T>(s: seq<T>, rank: T -> int, x: T)
    ensures x in SortBy(s, rank) <==> x in s
  {
    assert x in multiset(SortBy(s, rank)) <==> x in multiset(s);
  }

  /** Re-sorting a window keeps its length. */
  lemma SortedLength<T>(s: seq<T>, rank: T -> int)
    ensures |SortBy(s, rank)| == |s|
  {
    assert |multiset(SortBy(s, rank))| == |multiset(s)|;
  }

  const TrendDays := 30
  const AverageDays := 7

  /** The body-metric field a trend is computed over. */
  datatype MetricField = Weight | BodyFat

  function FieldValue(m: BodyMetric, field: MetricField): Option<real>
  {
    match field
    case Weight => m.weight
    case BodyFat => m.bodyFat
  }

  /** Holds of a metric dated on or after `cutoff` that has `field`. */
  function InTrendWindow(field: MetricField, cutoff: Day): BodyMetric -> bool
  {
    (m: BodyMetric) => m.date >= cutoff && FieldValue(m, field).Some?
  }

  /** `m[field] || 0`. */
  function ValueOf(field: MetricField): BodyMetric -> real
  {
    (m: BodyMetric) => FieldValue(m, field).GetOr(0.0)
  }

  /** The metrics `calculateTrend` averages, oldest first. */
  function TrendWindow(metrics: seq<BodyMetric>, field: MetricField, today: Day): seq<BodyMetric>
  {
    SortBy(Filter(metrics, InTrendWindow(field, today - TrendDays)), (m: BodyMetric) => m.date)
  }

  /** The trend window is empty exactly when no metric of the last 30 days has the field. */
  lemma TrendWindowEmptyIff(metrics: seq<BodyMetric>, field: MetricField, today: Day)
    ensures |TrendWindow(metrics, field, today)| == 0 <==>
      forall m :: m in metrics ==> m.date < today - TrendDays || FieldValue(m, field).None?
  {
    var p := InTrendWindow(field, today - TrendDays);
    var window := Filter(metrics, p);
    SortedLength(window, (m: BodyMetric) => m.date);
    if |window| > 0 {
      assert window[0] in window;
      FilterMembership(metrics, p, window[0]);
    } else {
      forall m | m in metrics ensures m.date < today - TrendDays || FieldValue(m, field).None? {
        FilterMembership(metrics, p, m);
      }
    }
  }

  /** `calculateTrend`: the mean of `field` over the last 30 days, to one
      decimal place; `None` when no metric in that window has the field. */
  function CalculateTrend(metrics: seq<BodyMetric>, field: MetricField, today: Day): (r: Option<real>)
    ensures r.None? <==> forall m :: m in metrics ==> m.date < today - TrendDays || FieldValue(m, field).None?
    ensures r.Some? ==> (10.0 * r.value).Floor as real == 10.0 * r.value
  {
    var recent := TrendWindow(metrics, field, today);
    TrendWindowEmptyIff(metrics, field, today);
    if |recent| == 0 then None
    else Some(ToFixed1(SumBy(recent, ValueOf(field)) / |recent| as real))
  }

  /** Bounds on the values in the window bound the trend, after rounding. */
  lemma TrendBounds(metrics: seq<BodyMetric>, field: MetricField, today: Day, lo: real, hi: real)
    requires forall m :: m in metrics && m.date >= today - TrendDays && FieldValue(m, field).Some? ==>
      lo <= FieldValue(m, field).value <= hi
    ensures CalculateTrend(metrics, field, today).Some? ==>
      ToFixed1(lo) <= CalculateTrend(metrics, field, today).value <= ToFixed1(hi)
  {
    var p := InTrendWindow(field, today - TrendDays);
    var window := Filter(metrics, p);
    var recent := TrendWindow(metrics, field, today);
    if |recent| > 0 {
      forall m | m in recent ensures lo <= ValueOf(field)(m) <= hi {
        SortedMembers(window, (m: BodyMetric) => m.date, m);
        FilterMembership(metrics, p, m);
      }
      MeanBetween(recent, ValueOf(field), lo, hi);
      var mean := SumBy(recent, ValueOf(field)) / |recent| as real;
      ToFixed1Monotone(lo, mean);
      ToFixed1Monotone(mean, hi);
    }
  }

  /** Two weigh-ins of 180 and 182 in the window give a weight trend of 181.0. */
  lemma TrendExample(today: Day)
    ensures CalculateTrend([BodyMetric("1", today, Some(180.0), None, "manual"),
                            BodyMetric("2", today - 1, Some(182.0), None, "manual")], Weight, today)
            == Some(181.0)
  {
    var a := BodyMetric("1", today, Some(180.0), None, "manual");
    var b := BodyMetric("2", today - 1, Some(182.0), None, "manual");
    var f := ValueOf(Weight);
    var recent := TrendWindow([a, b], Weight, today);
    TwoInWindow(a, b, today);
    assert SumBy(recent, f) == 362.0 by {
      SumByPermutation(recent, [a, b], f);
      SumOfTwo(a, b, f);
    }
    assert ToFixed1(362.0 / 2.0) == 181.0 by {
      assert 362.0 / 2.0 == 1810 as real / 10.0;
      ToFixed1OfTenths(1810);
    }
  }

  lemma TwoInWindow(a: BodyMetric, b: BodyMetric, today: Day)
    requires a.date >= today - TrendDays && a.weight.Some?
    requires b.date >= today - TrendDays && b.weight.Some?
    ensures multiset(TrendWindow([a, b], Weight, today)) == multiset([a, b])
    ensures |TrendWindow([a, b], Weight, today)| == 2
  {
    var p := InTrendWindow(Weight, today - TrendDays);
    assert p(a) && p(b);
    assert forall x :: x in [a, b] ==> x == a || x == b;
    FilterKeepsAll([a, b], p);
    var window := Filter([a, b], p);
    assert window == [a, b];
    var sorted := SortBy(window, (m: BodyMetric) => m.date);
    assert multiset(sorted) == multiset(window);
    assert |sorted| == |multiset(sorted)| == |multiset(window)| == 2;
  }

  lemma SumOfTwo<T>(a: T, b: T, f: T -> real)
    ensures SumBy([a, b], f) == f(a) + f(b)
  {
    assert [a, b][1..] == [b];
    assert [b][1..] == [];
    assert SumBy([b], f) == f(b) + SumBy([], f);
  }

  /** The window, and so the trend, depends only on the multiset of metrics. */
  lemma TrendOrderIndependent(m1: seq<BodyMetric>, m2: seq<BodyMetric>, field: MetricField, today: Day)
    requires multiset(m1) == multiset(m2)
    ensures CalculateTrend(m1, field, today) == CalculateTrend(m2, field, today)
  {
    var p := InTrendWindow(field, today - TrendDays);
    FilterPermutation(m1, m2, p);
    var r1 := TrendWindow(m1, field, today);
    var r2 := TrendWindow(m2, field, today);
    assert multiset(r1) == multiset(r2);
    assert |r1| == |multiset(r1)| == |multiset(r2)| == |r2|;
    SumByPermutation(r1, r2, ValueOf(field));
  }

  /** Metrics outside the 30-day window or without the field do not move the trend. */
  lemma TrendIgnoresOutside(metrics: seq<BodyMetric>, extra: seq<BodyMetric>, field: MetricField, today: Day)
    requires forall m :: m in extra ==> m.date < today - TrendDays || FieldValue(m, field).None?
    ensures CalculateTrend(metrics + extra, field, today) == CalculateTrend(metrics, field, today)
  {
    var p := InTrendWindow(field, today - TrendDays);
    FilterAppend(metrics, extra, p);
    FilterDropsAll(extra, p);
    assert Filter(metrics + extra, p) == Filter(metrics, p);
  }

  /** Holds of a sample dated on or after `cutoff`. */
  function InAverageWindow(cutoff: Day): OuraData -> bool
  {
    (d: OuraData) => d.date >= cutoff
  }

  /** The samples of the last seven days, newest first. */
  function AverageWindow(data: seq<OuraData>, today: Day): seq<OuraData>
  {
    SortBy(Filter(data, InAverageWindow(today - AverageDays)), (d: OuraData) => -d.date)
  }

  function SleepOf(): OuraData -> real
  {
    (d: OuraData) => d.sleepDuration
  }

  function RestingHeartRateOf(): OuraData -> real
  {
    (d: OuraData) => d.restingHeartRate
  }

  /** The seven-day window is empty exactly when no sample lies in it. */
  lemma AverageWindowEmptyIff(data: seq<OuraData>, today: Day)
    ensures |AverageWindow(data, today)| == 0 <==> forall d :: d in data ==> d.date < today - AverageDays
  {
    var p := InAverageWindow(today - AverageDays);
    var window := Filter(data, p);
    SortedLength(window, (d: OuraData) => -d.date);
    if |window| > 0 {
      assert window[0] in window;
      FilterMembership(data, p, window[0]);
    } else {
      forall d | d in data ensures d.date < today - AverageDays {
        FilterMembership(data, p, d);
      }
    }
  }

  /** `calculateSleepAverage`: mean sleep of the last seven days, to one
      decimal place; `None` when there is no sample in that window. */
  function CalculateSleepAverage(data: seq<OuraData>, today: Day): (r: Option<real>)
    ensures r.None? <==> forall d :: d in data ==> d.date < today - AverageDays
    ensures r.Some? ==> (10.0 * r.value).Floor as real == 10.0 * r.value
  {
    var recent := AverageWindow(data, today);
    AverageWindowEmptyIff(data, today);
    if |recent| == 0 then None
    else Some(ToFixed1(SumBy(recent, SleepOf()) / |recent| as real))
  }

  /** `calculateRHRTrend`: mean resting heart rate of the last seven days,
      rounded to a whole number; `None` when there is no sample in that window. */
  function CalculateRHRTrend(data: seq<OuraData>, today: Day): (r: Option<int>)
    ensures r.None? <==> forall d :: d in data ==> d.date < today - AverageDays
  {
    var recent := AverageWindow(data, today);
    AverageWindowEmptyIff(data, today);
    if |recent| == 0 then None
    else Some(RoundHalfUp(SumBy(recent, RestingHeartRateOf()) / |recent| as real))
  }

  /** The window holds exactly the samples of the last seven days. */
  lemma AverageWindowMembers(data: seq<OuraData>, today: Day, d: OuraData)
    ensures d in AverageWindow(data, today) <==> d in data && d.date >= today - AverageDays
  {
    var p := InAverageWindow(today - AverageDays);
    SortedMembers(Filter(data, p), (d: OuraData) => -d.date, d);
    FilterMembership(data, p, d);
  }

  /** Bounds on the sleep durations in the window bound the sleep average. */
  lemma SleepAverageBounds(data: seq<OuraData>, today: Day, lo: real, hi: real)
    requires forall d :: d in data && d.date >= today - AverageDays ==> lo <= d.sleepDuration <= hi
    ensures CalculateSleepAverage(data, today).Some? ==>
      ToFixed1(lo) <= CalculateSleepAverage(data, today).value <= ToFixed1(hi)
  {
    var recent := AverageWindow(data, today);
    if |recent| > 0 {
      forall d | d in recent ensures lo <= SleepOf()(d) <= hi {
        AverageWindowMembers(data, today, d);
      }
      MeanBetween(recent, SleepOf(), lo, hi);
      var mean := SumBy(recent, SleepOf()) / |recent| as real;
      ToFixed1Monotone(lo, mean);
      ToFixed1Monotone(mean, hi);
    }
  }

  /** Bounds on the resting heart rates in the window bound the rounded mean. */
  lemma RHRTrendBounds(data: seq<OuraData>, today: Day, lo: real, hi: real)
    requires forall d :: d in data && d.date >= today - AverageDays ==> lo <= d.restingHeartRate <= hi
    ensures CalculateRHRTrend(data, today).Some? ==>
      RoundHalfUp(lo) <= CalculateRHRTrend(data, today).value <= RoundHalfUp(hi)
  {
    var recent := AverageWindow(data, today);
    if |recent| > 0 {
      forall d | d in recent ensures lo <= RestingHeartRateOf()(d) <= hi {
        AverageWindowMembers(data, today, d);
      }
      MeanBetween(recent, RestingHeartRateOf(), lo, hi);
      var mean := SumBy(recent, RestingHeartRateOf()) / |recent| as real;
      RoundHalfUpMonotone(lo, mean);
      RoundHalfUpMonotone(mean, hi);
    }
  }

  /** When every resting heart rate of the window is the whole number `v`,
      the trend is exactly `v`. */
  lemma RHRTrendOfConstant(data: seq<OuraData>, today: Day, v: int)
    requires exists d :: d in data && d.date >= today - AverageDays
    requires forall d :: d in data && d.date >= today - AverageDays ==> d.restingHeartRate == v as real
    ensures CalculateRHRTrend(data, today) == Some(v)
  {
    RHRTrendBounds(data, today, v as real, v as real);
    RoundHalfUpOfInt(v);
  }

  /** The seven-day means depend only on the multiset of samples, not on
      their order. */
  lemma AverageOrderIndependent(d1: seq<OuraData>, d2: seq<OuraData>, today: Day)
    requires multiset(d1) == multiset(d2)
    ensures CalculateSleepAverage(d1, today) == CalculateSleepAverage(d2, today)
    ensures CalculateRHRTrend(d1, today) == CalculateRHRTrend(d2, today)
  {
    FilterPermutation(d1, d2, InAverageWindow(today - AverageDays));
    var r1 := AverageWindow(d1, today);
    var r2 := AverageWindow(d2, today);
    assert multiset(r1) == multiset(r2);
    assert |r1| == |multiset(r1)| == |multiset(r2)| == |r2|;
    SumByPermutation(r1, r2, SleepOf());
    SumByPermutation(r1, r2, RestingHeartRateOf());
  }

  /** Samples older than seven days move neither mean. */
  lemma AverageIgnoresOutside(data: seq<OuraData>, extra: seq<OuraData>, today: Day)
    requires forall d :: d in extra ==> d.date < today - AverageDays
    ensures CalculateSleepAverage(data + extra, today) == CalculateSleepAverage(data, today)
    ensures CalculateRHRTrend(data + extra, today) == CalculateRHRTrend(data, today)
  {
    var p := InAverageWindow(today - AverageDays);
    FilterAppend(data, extra, p);
    FilterDropsAll(extra, p);
    assert Filter(data + extra, p) == Filter(data, p);
  }
}
