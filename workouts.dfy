/** `POST` of halo/app/api/workouts/route.ts: log a workout, newest first. */
module WorkoutsRoute {
  import opened Wrappers
  import opened Calendar
  import opened Records
  import opened Store

  /** The fields of the request body that the handler reads. */
  datatype WorkoutInput = WorkoutInput(date: Day, kind: string, duration: real, note: Option<string>)

  /** Builds the workout with the supplied id and source "manual", puts it
      in front of the stored workouts, writes them back and returns it. */
  method Post(store: Store, id: string, body: WorkoutInput) returns (created: Workout)
    modifies store`workouts
    ensures created.id == id && created.source == "manual"
    ensures created.date == body.date && created.kind == body.kind
    ensures created.duration == body.duration && created.note == body.note
    ensures |store.workouts| == |old(store.workouts)| + 1
    ensures store.workouts[0] == created && store.workouts[1..] == old(store.workouts)
  {
    var workouts := store.workouts;
    var newWorkout := Workout(id, body.date, body.kind, body.duration, body.note, "manual");
    workouts := [newWorkout] + workouts;
    store.workouts := workouts;
    created := newWorkout;
  }
}
