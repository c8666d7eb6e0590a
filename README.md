# Mitigation engine of the network traffic anomaly detector

This project models the mitigation engine of the network-traffic anomaly
detector (`MitigationEngine` in `utils/mitigation_engine.py`). The engine is
given a table of traffic records. Each record has a timestamp, a byte count, a
protocol and the label an upstream classifier assigned to it. The engine keeps
the records labelled exactly `"Anomaly"` and runs three detector families over
that anomalous subset:

- traffic volume: two-sigma outliers and a three-record rolling-mean burst;
- protocol mix: one protocol above 70%, more than two protocols, and protocols
  outside TCP, UDP, HTTP, HTTPS, SSH and FTP;
- timing: regular gaps between consecutive records, a gap under one second,
  and one hour of the day holding more than 30% of the records.

Three generators then append catalog recommendations to one list, in this
order: TRAFFIC_SPIKE, PATTERN_ANOMALY, PROTOCOL_ANOMALY, DATA_EXFILTRATION.

Modules, one per file:

- `Masks` (`masks.dfy`): selecting the elements of a sequence under a boolean
  mask, which is how pandas filters rows.
- `Statistics` (`statistics.dfy`): sums, counts, distinct values, the
  real-valued mean and sample variance, and the arithmetic facts the detectors
  rely on. These include the closed form of the variance and Samuelson's
  inequality.
- `Records` (`records.dfy`): the record type, the filter to the anomalous
  subset, and the columns.
- `RuleCatalog` (`rule_catalog.dfy`): the fixed catalog and the shape of a
  recommendation.
- `TrafficDetector`, `ProtocolDetector`, `TemporalDetector`: the three detector
  families as pure functions over the columns. Each comes with lemmas that
  tie its exact integer test to the real-valued statement in the source.
- `MitigationEngine` (`mitigation_engine.dfy`):
  - the generators and `analyze_anomalies`, as methods that build the list
    step by step;
  - `Recommendations`, the function that specifies them.
- `EngineProperties` (`engine_properties.dfy`): what is reported under which
  condition, stated over the input records.

The detectors compare means, standard deviations and shares with thresholds.
The model evaluates each comparison exactly, by cross-multiplying integers:

- outlier: `x > mean + 2 std` becomes `n x - S > 0 && (n x - S)^2 (n - 1) > 4 n (n Q - S^2)`;
- burst: a rolling mean above twice the mean becomes `(a + b + c) n > 6 S`;
- share: a share above 0.7 becomes `count * 10 > 7 n`;
- hour concentration: a count above `0.3 n` becomes `count * 10 > 3 n`;
- regular interval: a deviation below a tenth of the mean becomes `S > 0 && 100 m (m Q - S^2) < (m - 1) S^2`.

Lemmas prove each of these equivalent to the real-valued comparison:
`HighVolumeIsTwoSigmaOutlier`, `BurstIsRollingMeanAboveTwiceMean` and
`RegularIntervalIsLowDispersion` state theirs with `Mean` and a sample standard
deviation (`IsSampleStd`); `DominatesIsShareAboveSeventyPercent` and
`ConcentrationIsCountAboveThirtyPercent` state theirs with the real share and
the real product `0.3 n`.

The outlier test uses pandas `std()`, which is the sample standard deviation
(divisor n - 1), and the model follows it. One consequence is proved: with five
or fewer anomalous records no value is a two-sigma outlier
(`NoOutlierInSmallSample`, from Samuelson's inequality). So
`[100, 100, 100, 100, 100000]` does not produce TRAFFIC_SPIKE. Under the
population standard deviation, `mean + 2 std` would equal 100000 exactly, and
the strict test would still fail.

The timestamps are nanoseconds, while the source compares the gaps in seconds.
The regular-interval test does not depend on the unit
(`RegularIntervalUnitFree`), and a gap under one second is a gap under 10^9
nanoseconds.

## Model

| member | source | states |
|---|---|---|
| RuleCatalog.LoadMitigationRules | utils/mitigation_engine.py:12-52 | the catalog has exactly four entries, one per pattern-type name, and every entry lists three actions |
| RuleCatalog.Rule | utils/mitigation_engine.py:155 | the lookup by a pattern type's name never misses; the entry has three actions; severity is HIGH exactly for TRAFFIC_SPIKE and DATA_EXFILTRATION and MEDIUM exactly for PATTERN_ANOMALY and PROTOCOL_ANOMALY |
| RuleCatalog.Tagged | utils/mitigation_engine.py:153-156 | a recommendation is the type tag followed by the description, actions and severity of that type's catalog entry |
| RuleCatalog.RecommendAppend | utils/mitigation_engine.py:73-75 | extending the list by the recommendations for two type lists in turn gives the recommendations for the concatenated type list |
| RuleCatalog.KindsOfRecommend | utils/mitigation_engine.py:153-156 | the type tags of the recommendations for a type list are that type list, in order |
| Records.Anomalies | utils/mitigation_engine.py:60 | the anomalous subset keeps the original order, holds every record labelled "Anomaly" exactly as many times as it occurs in the input and no other record, and is empty iff no record carries that label |
| Statistics.SampleVarianceClosedForm | utils/mitigation_engine.py:87 | the sample variance (divisor n - 1) of n >= 2 values equals (n Q - S^2) / (n (n - 1)) |
| Statistics.Samuelson | utils/mitigation_engine.py:87-88 | no value lies further than (n - 1)/sqrt(n) sample standard deviations from the mean: (n x - S)^2 <= (n - 1)(n Q - S^2) |
| TrafficDetector.HighVolume | utils/mitigation_engine.py:87 | a high outlier needs at least two values, and the outlier is above the mean |
| TrafficDetector.LowVolume | utils/mitigation_engine.py:88 | a low outlier needs at least two values, and the outlier is below the mean |
| TrafficDetector.DetectBurstPattern | utils/mitigation_engine.py:126-132 | false below three values; when true, some trailing three-value window sums, times n, to more than 6 S |
| TrafficDetector.AnalyzeTrafficPatterns | utils/mitigation_engine.py:83-91 | each field is its test on the volume column; five or fewer records give no outlier and fewer than three give no burst |
| TrafficDetector.TwoSigmaCrossMultiplied | utils/mitigation_engine.py:87-88 | the integer outlier tests hold iff x > S/n + 2 sd, respectively x < S/n - 2 sd, for sd with sd^2 = (n Q - S^2)/(n (n - 1)) |
| TrafficDetector.HighVolumeIsTwoSigmaOutlier | utils/mitigation_engine.py:87-88 | `high_volume` iff some value exceeds the mean plus two sample standard deviations; `low_volume` iff some value is below the mean minus two |
| TrafficDetector.BurstIsRollingMeanAboveTwiceMean | utils/mitigation_engine.py:131-132 | on three or more values, the burst test holds iff some defined three-record rolling mean exceeds twice the mean |
| TrafficDetector.EqualVolumesAreQuiet | utils/mitigation_engine.py:87-89 | a column of equal byte counts has no outlier above or below and no burst |
| TrafficDetector.NoOutlierInSmallSample | utils/mitigation_engine.py:87-88 | with at most five values, neither outlier test can hold |
| TrafficDetector.SixValuesCanSpike | utils/mitigation_engine.py:87 | the bound of five is tight: five zeros and a one make a high outlier |
| ProtocolDetector.ProtocolDominance | utils/mitigation_engine.py:99-101 | dominance holds iff the protocol of some record has a share above 0.7 |
| ProtocolDetector.ProtocolDiversity | utils/mitigation_engine.py:102 | more than two distinct protocols require at least three records |
| ProtocolDetector.UnusualProtocols | utils/mitigation_engine.py:103 | a protocol is unusual iff it occurs in the subset and is not one of the six known protocols |
| ProtocolDetector.AnalyzeProtocolPatterns | utils/mitigation_engine.py:96-105 | each field is its test on the protocol column; every record with an unknown protocol puts that protocol in the unusual set; diversity needs three records |
| ProtocolDetector.DominatesIsShareAboveSeventyPercent | utils/mitigation_engine.py:99-101 | the integer test count * 10 > 7 n holds iff the normalised count is above 0.7 |
| ProtocolDetector.SingleProtocolDominates | utils/mitigation_engine.py:99-101 | a non-empty column holding a single protocol is dominated |
| ProtocolDetector.AtMostOneDominant | utils/mitigation_engine.py:99-101 | two different protocols cannot both be above 0.7 |
| TemporalDetector.Diffs | utils/mitigation_engine.py:115 | n timestamps give n - 1 differences, each between a record and the one before it in the given order |
| TemporalDetector.DiffsTelescope | utils/mitigation_engine.py:115 | the differences sum to the last timestamp minus the first |
| TemporalDetector.RegularInterval | utils/mitigation_engine.py:117 | a regular interval needs at least two differences with a positive sum |
| TemporalDetector.RegularIntervalIsLowDispersion | utils/mitigation_engine.py:117 | the integer test holds iff the sample standard deviation of the differences is below a tenth of their mean |
| TemporalDetector.RegularIntervalNeedsForwardSpan | utils/mitigation_engine.py:115-117 | a regular interval needs three records and a last record later than the first |
| TemporalDetector.EquallySpacedIsRegular | utils/mitigation_engine.py:115-117 | three or more records equally spaced by a positive gap are regular |
| TemporalDetector.RegularIntervalUnitFree | utils/mitigation_engine.py:115-117 | multiplying every gap by the same positive factor (a finer time unit) does not change the regular-interval test |
| TemporalDetector.BurstTiming | utils/mitigation_engine.py:118 | a sub-second gap needs at least one difference |
| TemporalDetector.OutOfOrderIsBurstTiming | utils/mitigation_engine.py:115-118 | a record earlier than its predecessor gives a negative gap, which counts as burst timing |
| TemporalDetector.Hour | utils/mitigation_engine.py:140 | the hour of the day lies in 0..23 |
| TemporalDetector.Hours | utils/mitigation_engine.py:140 | the hour column has one entry per record, the hour of that record's timestamp |
| TemporalDetector.DetectTimeConcentration | utils/mitigation_engine.py:137-142 | the test holds iff one of the 24 hour buckets counts more than 30% of the records; with one to three records it always holds |
| TemporalDetector.ConcentrationIsCountAboveThirtyPercent | utils/mitigation_engine.py:142 | an hour's count times 10 exceeds 3 n iff the count is above 0.3 times the number of records |
| TemporalDetector.ConcentratedHourFires | utils/mitigation_engine.py:140-142 | an hour holding more than 30% of the records makes the test hold |
| TemporalDetector.AnalyzeTemporalPatterns | utils/mitigation_engine.py:110-121 | each field is its test on the timestamp column; fewer than three records are never regular; one to three records are always concentrated |
| MitigationEngine.Triggers | utils/mitigation_engine.py:152-190 | for every pattern type, the mask entry at its position is exactly the condition its generator tests |
| MitigationEngine.TriggeredTypes | utils/mitigation_engine.py:73-75 | the reported types follow the assembly order, never repeat, and include a type iff its condition holds |
| MitigationEngine.UnusedSignalsIgnored | utils/mitigation_engine.py:88-118 | `low_volume`, `protocol_diversity` and `burst_timing` never change which types are reported |
| MitigationEngine.Recommendations | utils/mitigation_engine.py:57-77 | no labelled record gives the empty list; otherwise the types follow the assembly order without repeats, so at most four entries, and each entry is its type's catalog entry |
| MitigationEngine.GenerateTrafficRecommendations | utils/mitigation_engine.py:147-164 | the list holds TRAFFIC_SPIKE if `high_volume`, then PATTERN_ANOMALY if `burst_pattern`, each as its catalog entry |
| MitigationEngine.GenerateProtocolRecommendations | utils/mitigation_engine.py:169-180 | the list holds PROTOCOL_ANOMALY iff dominance holds or the unusual set is non-empty |
| MitigationEngine.GenerateTemporalRecommendations | utils/mitigation_engine.py:185-196 | the list holds DATA_EXFILTRATION iff the interval is regular or an hour is concentrated |
| MitigationEngine.AnalyzeAnomalies | utils/mitigation_engine.py:57-77 | the list returned, empty on the early return and assembled otherwise, equals `Recommendations` of the input |
| MitigationEngine.AssembleRecommendations | utils/mitigation_engine.py:65-75 | a fresh list extended by the three generators in turn is the recommendations for the triggered types, in assembly order |
| MitigationEngine.AssemblyIsTriggeredTypes | utils/mitigation_engine.py:73-75 | concatenating the three generators' lists gives the recommendations for the triggered types in assembly order |
| MitigationEngine.TriggeredTypesSplit | utils/mitigation_engine.py:73-75 | the triggered types split into the traffic, the protocol and the temporal selections |
| MitigationEngine.EmittedIffRaised | utils/mitigation_engine.py:60-75 | a type is reported iff some record is anomalous and the detectors' outputs on the anomalous subset raise it |
| EngineProperties.ReportedEntriesComeFromCatalog | utils/mitigation_engine.py:153-194 | every reported entry carries its catalog description and three actions, HIGH exactly for TRAFFIC_SPIKE and DATA_EXFILTRATION and MEDIUM exactly for the other two |
| EngineProperties.TrafficSpikeIffHighVolume | utils/mitigation_engine.py:152-156 | TRAFFIC_SPIKE is reported iff some record is anomalous and the anomalous volumes have a high outlier |
| EngineProperties.PatternAnomalyIffBurst | utils/mitigation_engine.py:158-162 | PATTERN_ANOMALY is reported iff some record is anomalous and the anomalous volumes show a burst |
| EngineProperties.ProtocolAnomalyIffDominanceOrUnknown | utils/mitigation_engine.py:174-178 | PROTOCOL_ANOMALY is reported iff some record is anomalous and one protocol dominates or an unknown protocol occurs |
| EngineProperties.ExfiltrationIffRegularOrConcentrated | utils/mitigation_engine.py:190-194 | DATA_EXFILTRATION is reported iff some record is anomalous and the gaps are regular or an hour is concentrated |
| EngineProperties.SmallSubsetHasNoSpike | utils/mitigation_engine.py:87 | five or fewer anomalous records never produce TRAFFIC_SPIKE |
| EngineProperties.UnknownProtocolIsReported | utils/mitigation_engine.py:103 | one anomalous record with an unknown protocol is enough for PROTOCOL_ANOMALY |
| EngineProperties.FewAnomaliesReportExfiltration | utils/mitigation_engine.py:142 | one to three anomalous records always produce DATA_EXFILTRATION |
| EngineProperties.SingleAnomalyReport | utils/mitigation_engine.py:60-77 | a single anomalous record yields exactly PROTOCOL_ANOMALY followed by DATA_EXFILTRATION |

## Left out

- Error handling and logging are not modelled. Each method's `try`/`except` only logs and re-raises.
- A frame that lacks one of the four columns makes pandas raise a KeyError. The model's records always carry all four, so that path is not modelled.
- Missing cell values (NaN, None or NaT in a column that exists) are not modelled; every record carries a value in each of the four fields. In the source such a value on an anomalous row is processed silently, with these effects:
  - a missing `protocol` is dropped by `value_counts(normalize=True)` (line 99), so shares and diversity are taken over the rows that have one; `set(df['protocol'])` (line 103) keeps it, so it always lands in `unusual_protocols` and PROTOCOL_ANOMALY is raised (line 174);
  - a missing `bytes_transferred` is skipped by `mean()` and `std()` (lines 87-88) but still counted by `len(df)` in the burst guard (line 129), and every three-row window that contains it has a NaN rolling mean, which never exceeds the threshold (lines 131-132);
  - a NaT timestamp makes the gaps on either side of it NaN, which `std()` and `mean()` skip and `< 1` never matches (lines 115-118); its hour is dropped by `value_counts()` but the row is still counted by `len(df)` in the 30% threshold (lines 140-142).
- The module-level imports that the engine never uses are not modelled: KMeans, json and datetime.
- `utils/helpers.py` is not part of this model. It sets up the logging handlers, loads a JSON configuration file and creates the `logs`, `outputs` and `data` directories; all of it is I/O.
- The catalog is built once by the constructor and only read afterwards, so it is the constant `LoadMitigationRules()`, not an object field.
- RuleCatalog.Tagged: builds a value copy of the catalog entry. The source's `{'type': t, **self.mitigation_rules[t]}` is a shallow copy, so each returned `'recommendations'` list is the catalog's own list object (utils/mitigation_engine.py:153-156, 159-162, 175-178, 191-194). A caller that edits a returned action list changes the engine's catalog and every later report of that type. The model does not capture this aliasing: its catalog is a constant and no caller can change it.
- Catalog entries are modelled as records with a severity enumeration, not as Python dictionaries with string severities. The severity strings "HIGH" and "MEDIUM" map to `High` and `Medium`.
- A recommendation is a record with a `kind` field in place of the dictionary key `'type'`. Its `Name()` is the key string.
- Timestamp parsing is not modelled. A record carries an already parsed time, in nanoseconds since the epoch, in naive UTC.
- The hour of a timestamp is floor division by one hour, modulo 24. Time zones are not modelled.
- Gaps stay whole nanoseconds; the fractional seconds `total_seconds()` returns are not modelled as reals. `RegularIntervalUnitFree` covers the change of unit for the regular-interval test only for whole-number factors, and the sub-second test is compared with 10^9 nanoseconds.
- Floating-point rounding is not modelled. Means, standard deviations and shares are exact. The thresholds 0.1, 0.3, 0.7 and 2 are exact rationals.
- Byte counts are natural numbers; the source does not bound them.
- The pandas frame is a sequence of records. Only the columns the engine reads are modelled: `timestamp`, `bytes_transferred`, `protocol` and `anomaly`.
- The extra `hour` column that the concentration check adds to its copy of the frame is not modelled. It is a scratch column that nothing else reads.
- Labels other than the exact string "Anomaly" are not normalised. Any other label is simply not anomalous.
