/** `POST` and `PUT` of halo/app/api/goals/route.ts: append a goal, and
    update the first goal with a given id by a shallow merge. */
module GoalsRoute {
  import opened Wrappers
  import opened Records
  import opened Store

  /** The fields of a `POST` body that the handler reads. */
  datatype GoalInput = GoalInput(
    title: string,
    kind: GoalType,
    target: real,
    current: real,
    unit: string,
    period: GoalPeriod,
    startDate: string,
    endDate: string)

  /** A `PUT` body: the id to look up and the fields to overwrite. */
  datatype GoalPatch = GoalPatch(
    id: string,
    title: Option<string>,
    kind: Option<GoalType>,
    target: Option<real>,
    current: Option<real>,
    unit: Option<string>,
    period: Option<GoalPeriod>,
    startDate: Option<string>,
    endDate: Option<string>)

  datatype GoalError = NotFound

  /** Builds the goal from the body with the supplied id, appends it to the
      stored goals, writes them back and returns it. */
  method Post(store: Store, id: string, body: GoalInput) returns (created: Goal)
    modifies store`goals
    ensures created.id == id && created.title == body.title && created.kind == body.kind
    ensures created.target == body.target && created.current == body.current
    ensures created.unit == body.unit && created.period == body.period
    ensures created.startDate == body.startDate && created.endDate == body.endDate
    ensures store.goals == old(store.goals) + [created]
  {
    var goals := store.goals;
    var newGoal := Goal(id, body.title, body.kind, body.target, body.current, body.unit,
                        body.period, body.startDate, body.endDate);
    goals := goals + [newGoal];
    store.goals := goals;
    created := newGoal;
  }

  /** `findIndex`: the position of the first goal with the id, if any. */
  function FindIndex(goals: seq<Goal>, id: string): (r: Option<nat>)
    ensures r.None? <==> forall i :: 0 <= i < |goals| ==> goals[i].id != id
    ensures r.Some? ==> r.value < |goals| && goals[r.value].id == id
    ensures r.Some? ==> forall j :: 0 <= j < r.value ==> goals[j].id != id
  {
    if goals == [] then None
    else if goals[0].id == id then Some(0)
    else match FindIndex(goals[1..], id)
      case None => None
      case Some(k) => Some(k + 1)
  }

  /** `{ ...goal, ...body }`: every field the patch supplies overwrites the
      goal's, every other field keeps its prior value. */
  function Merge(g: Goal, patch: GoalPatch): (r: Goal)
    ensures r.id == patch.id
    ensures r.title == patch.title.GetOr(g.title)
    ensures r.kind == patch.kind.GetOr(g.kind)
    ensures r.target == patch.target.GetOr(g.target)
    ensures r.current == patch.current.GetOr(g.current)
    ensures r.unit == patch.unit.GetOr(g.unit)
    ensures r.period == patch.period.GetOr(g.period)
    ensures r.startDate == patch.startDate.GetOr(g.startDate)
    ensures r.endDate == patch.endDate.GetOr(g.endDate)
  {
    Goal(patch.id,
         patch.title.GetOr(g.title),
         patch.kind.GetOr(g.kind),
         patch.target.GetOr(g.target),
         patch.current.GetOr(g.current),
         patch.unit.GetOr(g.unit),
         patch.period.GetOr(g.period),
         patch.startDate.GetOr(g.startDate),
         patch.endDate.GetOr(g.endDate))
  }

  /** A patch that supplies only the goal's own id leaves it unchanged. */
  lemma MergeNothing(g: Goal)
    ensures Merge(g, GoalPatch(g.id, None, None, None, None, None, None, None, None)) == g
  {
  }

  /** Applying the same patch twice is applying it once. */
  lemma MergeIdempotent(g: Goal, patch: GoalPatch)
    ensures Merge(Merge(g, patch), patch) == Merge(g, patch)
  {
  }

  /** Looks up the first goal with the patch's id. Absent: answers
      `NotFound` and writes nothing. Present: replaces that goal by the
      merge, writes the goals back and returns the updated goal. */
  method Put(store: Store, patch: GoalPatch) returns (r: Result<Goal, GoalError>)
    modifies store`goals
    ensures (forall i :: 0 <= i < |old(store.goals)| ==> old(store.goals)[i].id != patch.id) ==>
      r == Failure(NotFound) && store.goals == old(store.goals)
    ensures FindIndex(old(store.goals), patch.id).Some? ==>
      var i := FindIndex(old(store.goals), patch.id).value;
      && store.goals == old(store.goals)[i := Merge(old(store.goals)[i], patch)]
      && r == Success(store.goals[i])
  {
    var goals := store.goals;
    var index := FindIndex(goals, patch.id);
    if index.None? {
      return Failure(NotFound);
    }
    var i := index.value;
    goals := goals[i := Merge(goals[i], patch)];
    store.goals := goals;
    r := Success(goals[i]);
  }
}
