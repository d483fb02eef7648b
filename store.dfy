/** The record store: one persisted collection per JSON file under `data/`.
    Each handler reads a collection, changes its copy and writes the whole
    collection back, so a handler is modelled as a method that may change
    only the field of the collection it writes. */
module Store {
  import opened Records

  class Store {
    var workouts: seq<Workout>          // workouts.json
    var bodyMetrics: seq<BodyMetric>    // bodyMetrics.json
    var journal: seq<JournalEntry>      // journal.json
    var goals: seq<Goal>                // goals.json
    var ouraData: seq<OuraData>         // integrations/oura.json

    constructor (workouts: seq<Workout>, bodyMetrics: seq<BodyMetric>, journal: seq<JournalEntry>,
                 goals: seq<Goal>, ouraData: seq<OuraData>)
      ensures this.workouts == workouts && this.bodyMetrics == bodyMetrics
      ensures this.journal == journal && this.goals == goals && this.ouraData == ouraData
    {
      this.workouts := workouts;
      this.bodyMetrics := bodyMetrics;
      this.journal := journal;
      this.goals := goals;
      this.ouraData := ouraData;
    }
  }
}
