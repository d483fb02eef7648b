/** The record shapes of lib/data.ts. Dates are whole calendar days; the
    numbers the dashboard measures are reals. */
module Records {
  import opened Wrappers
  import opened Calendar

  /** A logged training session. `kind` is the source's `type` field. */
  datatype Workout = Workout(
    id: string,
    date: Day,
    kind: string,
    duration: real,
    note: Option<string>,
    source: string)

  /** A weigh-in: either measurement may be missing. */
  datatype BodyMetric = BodyMetric(
    id: string,
    date: Day,
    weight: Option<real>,
    bodyFat: Option<real>,
    source: string)

  datatype GoalType = Training | Body | Health

  datatype GoalPeriod = Monthly | Annual

  /** A goal with a numeric target. `kind` is the source's `type` field. */
  datatype Goal = Goal(
    id: string,
    title: string,
    kind: GoalType,
    target: real,
    current: real,
    unit: string,
    period: GoalPeriod,
    startDate: string,
    endDate: string)

  datatype JournalEntry = JournalEntry(
    id: string,
    date: Day,
    content: string,
    tags: seq<string>)

  /** One day of the sleep/heart-rate integration (`OuraData`). */
  datatype OuraData = OuraData(
    id: string,
    date: Day,
    sleepDuration: real,
    restingHeartRate: real,
    hrv: real,
    source: string)
}
