/** The dashboard snapshot of app/api/dashboard/route.ts: the rollups of the
    four collections and every goal annotated with its progress and status. */
module Dashboard {
  import opened Wrappers
  import opened Calendar
  import opened Records
  import opened Numeric
  import opened Calculations

  datatype GoalStatus = Completed | OnTrack | OffTrack

  /** Percentage of the target reached, to the nearest whole number; 0 when
      the target is not positive. */
  function GoalProgress(g: Goal): (p: int)
    ensures g.target <= 0.0 ==> p == 0
    ensures g.target > 0.0 ==> p as real - 0.5 <= g.current / g.target * 100.0 < p as real + 0.5
  {
    if g.target > 0.0 then RoundHalfUp((g.current / g.target) * 100.0) else 0
  }

  /** The three bands; each boundary belongs to the higher band. */
  function StatusOf(progress: int): (s: GoalStatus)
    ensures s == Completed <==> progress >= 100
    ensures s == OnTrack <==> 75 <= progress < 100
    ensures s == OffTrack <==> progress < 75
  {
    if progress >= 100 then Completed
    else if progress >= 75 then OnTrack
    else OffTrack
  }

  /** A goal with every original field plus `progress` and `status`. */
  datatype GoalView = GoalView(goal: Goal, progress: int, status: GoalStatus)

  /** The goal keeps every field; a goal whose target is not positive is
      off-track at 0 %, and otherwise the bands fall where the unrounded
      percentage crosses 99.5 and 74.5. */
  function AnnotateGoal(g: Goal): (v: GoalView)
    ensures v.goal == g
    ensures v.progress == GoalProgress(g)
    ensures v.status == StatusOf(v.progress)
    ensures g.target <= 0.0 ==> v.progress == 0 && v.status == OffTrack
    ensures g.target > 0.0 ==> (v.status == Completed <==> g.current / g.target * 100.0 >= 99.5)
    ensures g.target > 0.0 ==> (v.status == OffTrack <==> g.current / g.target * 100.0 < 74.5)
  {
    var progress := GoalProgress(g);
    GoalView(g, progress, StatusOf(progress))
  }

  datatype TrainingSummary = TrainingSummary(thisWeek: nat, thisMonth: nat, streak: nat)

  datatype BodySummary = BodySummary(weightTrend: Option<real>, bodyFatTrend: Option<real>)

  datatype HealthSummary = HealthSummary(sleepAverage: Option<real>, rhrTrend: Option<int>)

  datatype DashboardView = DashboardView(
    training: TrainingSummary,
    body: BodySummary,
    health: HealthSummary,
    goals: seq<GoalView>)

  /** The `dashboard` object built by `GET`. */
  function BuildDashboard(workouts: seq<Workout>, bodyMetrics: seq<BodyMetric>, ouraData: seq<OuraData>,
                          goals: seq<Goal>, today: Day): (r: DashboardView)
    ensures r.training == TrainingSummary(WorkoutsInPeriod(workouts, 7, today),
                                          WorkoutsInPeriod(workouts, 30, today),
                                          Streak(workouts, today))
    ensures r.body == BodySummary(CalculateTrend(bodyMetrics, Weight, today),
                                  CalculateTrend(bodyMetrics, BodyFat, today))
    ensures r.health == HealthSummary(CalculateSleepAverage(ouraData, today),
                                      CalculateRHRTrend(ouraData, today))
    ensures r.training.thisWeek <= r.training.thisMonth <= |workouts|
    ensures MinWorkoutsPerWeek * r.training.streak <= |workouts|
    ensures |r.goals| == |goals|
    ensures forall i :: 0 <= i < |goals| ==> r.goals[i].goal == goals[i] && r.goals[i] == AnnotateGoal(goals[i])
  {
    WorkoutsInPeriodMonotone(workouts, 7, 30, today);
    DashboardView(
      TrainingSummary(
        WorkoutsInPeriod(workouts, 7, today),
        WorkoutsInPeriod(workouts, 30, today),
        Streak(workouts, today)),
      BodySummary(
        CalculateTrend(bodyMetrics, Weight, today),
        CalculateTrend(bodyMetrics, BodyFat, today)),
      HealthSummary(
        CalculateSleepAverage(ouraData, today),
        CalculateRHRTrend(ouraData, today)),
      seq(|goals|, i requires 0 <= i < |goals| => AnnotateGoal(goals[i])))
  }

  /** An empty collection degrades only its own part of the snapshot: counts
      and streak to 0, means to `None`, the goal list to empty. */
  lemma DashboardOfEmpty(workouts: seq<Workout>, bodyMetrics: seq<BodyMetric>, ouraData: seq<OuraData>,
                         goals: seq<Goal>, today: Day)
    ensures workouts == [] ==>
      BuildDashboard(workouts, bodyMetrics, ouraData, goals, today).training == TrainingSummary(0, 0, 0)
    ensures bodyMetrics == [] ==>
      BuildDashboard(workouts, bodyMetrics, ouraData, goals, today).body == BodySummary(None, None)
    ensures ouraData == [] ==>
      BuildDashboard(workouts, bodyMetrics, ouraData, goals, today).health == HealthSummary(None, None)
    ensures goals == [] ==>
      BuildDashboard(workouts, bodyMetrics, ouraData, goals, today).goals == []
  {
  }

  /** The worked examples: target 0 is off-track at 0 %; 100 of 100 is
      completed; 76 and 74 of 100 fall on either side of the 75 % line. */
  lemma GoalExamples(g: Goal)
    ensures AnnotateGoal(g.(target := 0.0, current := 5.0)).progress == 0
    ensures AnnotateGoal(g.(target := 0.0, current := 5.0)).status == OffTrack
    ensures AnnotateGoal(g.(target := 100.0, current := 100.0)) == GoalView(g.(target := 100.0, current := 100.0), 100, Completed)
    ensures AnnotateGoal(g.(target := 100.0, current := 76.0)) == GoalView(g.(target := 100.0, current := 76.0), 76, OnTrack)
    ensures AnnotateGoal(g.(target := 100.0, current := 74.0)) == GoalView(g.(target := 100.0, current := 74.0), 74, OffTrack)
  {
  }
}
