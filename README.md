# Hastic analytic core in Dafny

This project models the analytic core of the hastic metrics-monitoring server:

- **The configuration patch protocol** (`AnalyticUnitConfig::patch`). A unit's configuration is one of three strategies: Pattern, Threshold or Anomaly. A patch names a strategy and carries either a new configuration or nothing. Nothing means "reset to that strategy's default". The protocol returns the new configuration, whether the unit must learn again, and whether the patch was for the strategy already in use.
- **The threshold analytic unit** (`ThresholdAnalyticUnit`). It is a class whose only field is its threshold configuration. Learning always finishes at once. Detection scans the first series of a metric query and reports every run of samples above the threshold as a `(from, to)` pair of timestamps.
- **The analytic service's threshold detection** (`AnalyticService::get_threshold_detections`). It runs the same scan, but emits `Detection` segments.

Both detection loops are modelled as methods with `while` loops. Each is proved equal to a functional specification. The two share one scan specification, `Crossing.RunsUpTo`, which works on sample indices. A run opens at the first sample whose value exceeds the threshold. It closes at the first later sample whose value does not exceed it, so a value equal to the threshold counts as "not exceeding". The detectors differ in where they close a run that is still open after the last sample:

- the unit closes it at the **last sample's timestamp** (`ThresholdAnalyticUnit.UnitRuns`);
- the service closes it at the **query's `to` argument** (`AnalyticService.ServicePairs`).

Neither detector marks such a segment as open-ended, and the model does not either.

`Crossing.RunsUpToSound` pins the scan to an independent description of runs. Every closed pair is a maximal run: it starts at a sample above the threshold whose predecessor is not above it, and it ends at the first later sample that is not above. Pairs are ordered, so each ends before any later one starts. Every run start is recorded. The number of pairs equals `Crossing.RunCount`, which counts run starts directly.

Modules: `Common` (Option, Result), `Crossing` (samples, the metric query result, the run scan and its proofs), `AnalyticUnitTypes` (types.rs), `ThresholdAnalyticUnit` (threshold_analytic_unit.rs), `AnalyticService` (analytic_service.rs).

Modelling choices:

- Values (`f32`/`f64`) are `real`. Only `>` against the threshold and equality of the `u64` seasonality fields matter. The seasonality fields are `U64`, a subset type of `int`.
- Timestamps are `nat`. They are only copied, never computed on, so the `u64` bound plays no part.
- A metric query result is a sequence of labelled series in the order the map iterates them. As in the source, the first one is used, and a result with no series gives no detections.
- The service's query outcome is an input `Result`. A failed query is passed on unchanged, as the source's `?` does.
- Segment ids are injected. The k-th segment emitted gets `Some(newId(k))`.
- In `threshold_analytic_unit.rs:45` the code reads `self.config.threashold`, but the field is `threshold` (`types.rs:49`). The model reads `threshold`.
- In `threshold_analytic_unit.rs:24`, `learn` returns a bare `LearningResult`, while the interface declares `anyhow::Result<LearningResult>` (`types.rs:136-140`). The model's `Learn` always succeeds with `Finished`.

## Model

| member | source | states |
|---|---|---|
| AnalyticUnitTypes.DefaultPatternConfig | server/src/services/analytic_service/analytic_unit/types.rs:17-26 | The Pattern default is correlation 0.3, anti-correlation 0.1, model 0.8, threshold score 1.0. |
| AnalyticUnitTypes.DefaultAnomalyConfig | server/src/services/analytic_service/analytic_unit/types.rs:36-45 | The Anomaly default is alpha 0.5, confidence 10.0, seasonality 3600 s, 3 seasonality iterations. |
| AnalyticUnitTypes.DefaultThresholdConfig | server/src/services/analytic_service/analytic_unit/types.rs:52-56 | The Threshold default is threshold 0.5. |
| AnalyticUnitTypes.Requested | server/src/services/analytic_service/analytic_unit/types.rs:69-122 | The configuration a patch asks for (its payload, or its strategy's default) has the patch's strategy. |
| AnalyticUnitTypes.Patch | server/src/services/analytic_service/analytic_unit/types.rs:67-124 | The new configuration always has the patch's strategy. The same-strategy flag is true exactly when the current strategy equals the patch's. A strategy switch always needs relearning. |
| AnalyticUnitTypes.PatchGivesRequested | server/src/services/analytic_service/analytic_unit/types.rs:67-123 | Whatever the current configuration, the result is the patch's payload, or the patch strategy's default when there is no payload. Nothing of the old configuration carries over. |
| AnalyticUnitTypes.PatchSwitchVariant | server/src/services/analytic_service/analytic_unit/types.rs:78-121 | When the patch's strategy differs from the current one, the result is the requested configuration with needs-relearning true and same-strategy false, with or without a payload (lines 78-84, 98-104, 115-121). |
| AnalyticUnitTypes.PatchResetSameVariant | server/src/services/analytic_service/analytic_unit/types.rs:73-113 | A same-strategy patch without a payload gives that strategy's default, with needs-relearning false and same-strategy true (lines 75, 95, 112). |
| AnalyticUnitTypes.PatchPatternThresholdNoRelearn | server/src/services/analytic_service/analytic_unit/types.rs:70-76 | Same-strategy Pattern and Threshold patches (also lines 108-113) give the requested configuration and never need relearning. |
| AnalyticUnitTypes.PatchAnomalyRelearn | server/src/services/analytic_service/analytic_unit/types.rs:88-93 | A same-strategy Anomaly payload becomes the configuration. It needs relearning if and only if seasonality or seasonality iterations differ from the current ones. |
| AnalyticUnitTypes.PatchAnomalyDetectionParams | server/src/services/analytic_service/analytic_unit/types.rs:90-93 | Changing only alpha and confidence of an Anomaly configuration needs no relearning. |
| AnalyticUnitTypes.PatchIdempotent | server/src/services/analytic_service/analytic_unit/types.rs:67-123 | Re-applying a patch to its own result gives the same configuration, with needs-relearning false and same-strategy true. |
| Crossing.FirstSeries | server/src/services/analytic_service.rs:45-50 | A query result has no series to scan exactly when it holds no series. Otherwise the first series is used. |
| Crossing.Step | server/src/services/analytic_service.rs:55-72 | One loop iteration (also threshold_analytic_unit.rs:45-56). Afterwards a run is open exactly when the sample is above the threshold; an open run keeps its start. The closed runs either stay as they are, or gain one pair that closes the open run at this sample. |
| Crossing.RunsUpTo | server/src/services/analytic_service.rs:52-73 | The loop's state after n samples mentions only sample indices below n. |
| Crossing.RunsUpToSound | server/src/services/analytic_service.rs:53-73 | After n samples: each closed pair is a maximal run, from a sample above the threshold whose predecessor is not, to the first later sample not above. Pairs are ordered. An open start begins a run that lasts to sample n-1. Every run start is recorded. The closed plus open runs are exactly the runs that start before n. |
| Crossing.NoRunsWhenAllBelow | server/src/services/analytic_service.rs:54-72 | If no sample exceeds the threshold (equal values do not), the loop closes and opens nothing. |
| ThresholdAnalyticUnit.ThresholdAnalyticUnit.constructor | server/src/services/analytic_service/analytic_unit/threshold_analytic_unit.rs:17-19 | A new unit stores the given configuration unchanged. |
| ThresholdAnalyticUnit.ThresholdAnalyticUnit.Learn | server/src/services/analytic_service/analytic_unit/threshold_analytic_unit.rs:24-26 | Learning always returns Finished. It may modify nothing, so the unit's configuration is unchanged. |
| ThresholdAnalyticUnit.ThresholdAnalyticUnit.Detect | server/src/services/analytic_service/analytic_unit/threshold_analytic_unit.rs:27-67 | The loop returns exactly the unit's specified pairs for the query result and the unit's threshold. It has no modifies clause, so the unit is not changed. |
| ThresholdAnalyticUnit.UnitRuns | server/src/services/analytic_service/analytic_unit/threshold_analytic_unit.rs:42-62 | The unit's end-of-series rule on indices: the scan's closed runs, then a run still open closed at the last sample's index. Every index is a sample of the series. |
| ThresholdAnalyticUnit.UnitPairs | server/src/services/analytic_service/analytic_unit/threshold_analytic_unit.rs:42-62 | The timestamps of the unit's index pairs; its meaning is stated by UnitPairsAreRuns, UnitPairsCount and UnitPairsOrdered. |
| ThresholdAnalyticUnit.Detections | server/src/services/analytic_service/analytic_unit/threshold_analytic_unit.rs:35-62 | What `detect` returns: empty without a series, else the unit's pairs for the first series. Its properties are stated by the lemmas below. |
| ThresholdAnalyticUnit.NoSeriesNoDetections | server/src/services/analytic_service/analytic_unit/threshold_analytic_unit.rs:35-37 | A query result without a series gives an empty list. |
| ThresholdAnalyticUnit.AllBelowNoPairs | server/src/services/analytic_service/analytic_unit/threshold_analytic_unit.rs:44-57 | A series that never exceeds the threshold gives no pairs. |
| ThresholdAnalyticUnit.UnitPairsCount | server/src/services/analytic_service/analytic_unit/threshold_analytic_unit.rs:44-62 | The number of pairs equals the number of maximal runs of samples above the threshold. |
| ThresholdAnalyticUnit.UnitPairsAreRuns | server/src/services/analytic_service/analytic_unit/threshold_analytic_unit.rs:42-62 | Every pair emitted inside the loop is (start of a run, first later sample not above). If the last sample is above the threshold, exactly one more pair comes last: (start of that run, last sample's timestamp), as at lines 60-62. Otherwise every pair is a closed run. |
| ThresholdAnalyticUnit.UnitPairsOrdered | server/src/services/analytic_service/analytic_unit/threshold_analytic_unit.rs:44-62 | With strictly increasing timestamps, every pair has from <= to, closed pairs have from < to, and each pair ends before any later one starts. |
| ThresholdAnalyticUnit.ExampleClosedRun | server/src/services/analytic_service/analytic_unit/threshold_analytic_unit.rs:44-57 | Samples (0,0.1),(10,0.9),(20,0.95),(30,0.2) with threshold 0.5 give exactly [(10,30)]. |
| ThresholdAnalyticUnit.ExampleOpenRun | server/src/services/analytic_service/analytic_unit/threshold_analytic_unit.rs:60-62 | Samples (0,0.1),(10,0.9),(20,0.95) with threshold 0.5 give [(10,20)]: the open run closes at the last sample. |
| AnalyticService.ServicePairs | server/src/services/analytic_service.rs:52-83 | The service's end-of-series rule: the timestamps of the scan's closed runs, then a run still open closed at the query's `to`. Its meaning is stated by ServicePairsAreRuns, ServicePairsCount and ServicePairsOrdered. |
| AnalyticService.ToSegments | server/src/services/analytic_service.rs:63-82 | Every emitted segment, from the push inside the loop (lines 63-69) or the trailing push (lines 77-82), has type Detection and id Some(newId(k)), and keeps its pair's from and to. |
| AnalyticService.ThresholdDetections | server/src/services/analytic_service.rs:43-87 | What `get_threshold_detections` returns: the query's error, an empty list without a series, else the segments of the first series. |
| AnalyticService.GetThresholdDetections | server/src/services/analytic_service.rs:35-88 | The loop returns exactly the specified segments for the query outcome, threshold and `to`. |
| AnalyticService.QueryErrorPropagates | server/src/services/analytic_service.rs:43 | A failed query's error is returned unchanged. |
| AnalyticService.NoSeriesNoSegments | server/src/services/analytic_service.rs:45-47 | A query result without a series gives an empty list. |
| AnalyticService.AllBelowNoSegments | server/src/services/analytic_service.rs:54-72 | A series that never exceeds the threshold gives no segments. |
| AnalyticService.ServicePairsCount | server/src/services/analytic_service.rs:54-83 | The number of segments equals the number of maximal runs above the threshold. |
| AnalyticService.ServicePairsAreRuns | server/src/services/analytic_service.rs:53-83 | Every segment emitted inside the loop is a closed maximal run. If the last sample is above the threshold, exactly one more segment comes last, from that run's start to the query's `to`. |
| AnalyticService.ServicePairsOrdered | server/src/services/analytic_service.rs:54-73 | With strictly increasing timestamps, closed segments have from < to, and each segment ends before any later one starts. |
| AnalyticService.ServicePairsWithinQuery | server/src/services/analytic_service.rs:76-83 | With strictly increasing timestamps and no sample after `to`, every segment, the trailing one included, has from <= to. |
| AnalyticService.TrailingSegmentAfterQueryEnd | server/src/services/analytic_service.rs:76-83 | A single sample (100, 1.0) with threshold 0.5 and `to` = 50 gives the segment (100, 50): the trailing segment is not bounded by its start. |
| AnalyticService.ExampleClosedRun | server/src/services/analytic_service.rs:54-73 | Samples (0,0.1),(10,0.9),(20,0.95),(30,0.2) with threshold 0.5 give exactly one Detection segment (10,30). |
| AnalyticService.ExampleOpenRun | server/src/services/analytic_service.rs:76-83 | Samples (0,0.1),(10,0.9),(20,0.95) with threshold 0.5 give one segment from 10 to the query's `to`. |

## Left out

- The metric queries (`prom.query` and `ms.query`) are network I/O. Their result is an input instead.
- AnalyticService.ServicePairsWithinQuery: the trailing segment has from <= to only when the query returns no sample after `to`. The source does not check this, and TrailingSegmentAfterQueryEnd shows a segment (100, 50) when it does.
- The unit's `.unwrap()` on a failed query (threshold_analytic_unit.rs:33) panics. The model of `Detect` takes the successful result as input and does not model the panic.
- The `from`, `to` and `step` arguments that only feed the query, and the `DETECTION_STEP` constant, are left out. The service's `to` is kept because it closes a trailing run.
- `async`/`await` and `#[async_trait]` are left out. The concurrency is incidental to the logic.
- `get_random_str(ID_LENGTH)` is random and external. The ids are an injected function.
- Serde derives are library code and are left out.
- Floating-point semantics (rounding, NaN) are not modelled; values are exact reals. Under IEEE rules a NaN sample never exceeds the threshold, and with reals there is no NaN.
- `get_pattern_detection` is left out: it is a stub that returns an empty list.
- The `pattern_detector` module, `HSR`/`get_hsr`, `SegmentsService`, `MetricService` and the rest of segments_service are not part of this model. `Segment` is reconstructed from its construction in analytic_service.rs (lines 63-69, 77-82). That file uses only the `Detection` segment type; the other three `SegmentType` variants (`Pattern`, `Anomaly`, `Labeled`) follow the system's documented data model, not code in this model.
- `get_id`, `get_detection_window` and `set_config` are declared by the `AnalyticUnit` interface, but `ThresholdAnalyticUnit` does not define them in its file. They are not modelled.
- Pattern and Anomaly analytic units have no implementation in the source and are not modelled.
