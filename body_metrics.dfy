/** `POST` of app/api/body-metrics/route.ts: log a weigh-in, newest first. */
module BodyMetricsRoute {
  import opened Wrappers
  import opened Calendar
  import opened Records
  import opened Store

  /** The fields of the request body that the handler reads; either
      measurement may be left out. */
  datatype BodyMetricInput = BodyMetricInput(date: Day, weight: Option<real>, bodyFat: Option<real>)

  /** Builds the metric with the supplied id and source "manual", puts it in
      front of the stored metrics, writes them back and returns it. */
  method Post(store: Store, id: string, body: BodyMetricInput) returns (created: BodyMetric)
    modifies store`bodyMetrics
    ensures created.id == id && created.source == "manual"
    ensures created.date == body.date && created.weight == body.weight && created.bodyFat == body.bodyFat
    ensures |store.bodyMetrics| == |old(store.bodyMetrics)| + 1
    ensures store.bodyMetrics[0] == created && store.bodyMetrics[1..] == old(store.bodyMetrics)
  {
    var metrics := store.bodyMetrics;
    var newMetric := BodyMetric(id, body.date, body.weight, body.bodyFat, "manual");
    metrics := [newMetric] + metrics;
    store.bodyMetrics := metrics;
    created := newMetric;
  }
}
