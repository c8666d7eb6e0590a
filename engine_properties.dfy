/**
  Properties of the recommendations the engine reports, stated over the
  records it is given: which pattern type is reported under which detector
  outcome, what each reported entry holds, and what small anomalous subsets
  always or never produce.
 */
module EngineProperties {
  import opened Masks
  import opened Records
  import opened RuleCatalog
  import opened TrafficDetector
  import opened ProtocolDetector
  import opened TemporalDetector
  import opened MitigationEngine

  /** Each reported recommendation carries its catalog entry: three actions, HIGH exactly for TRAFFIC_SPIKE and DATA_EXFILTRATION. */
  lemma ReportedEntriesComeFromCatalog(rs: seq<Record>, i: int)
    requires 0 <= i < |Recommendations(rs)|
    ensures var r := Recommendations(rs)[i];
      r.description == Rule(r.kind).description
      && r.recommendations == Rule(r.kind).recommendations
      && |r.recommendations| == 3
      && (r.severity == High <==> r.kind in {TrafficSpike, DataExfiltration})
      && (r.severity == Medium <==> r.kind in {PatternAnomaly, ProtocolAnomaly})
  {
  }

  /** TRAFFIC_SPIKE is reported iff some record is anomalous and the anomalous volumes have a high outlier. */
  lemma TrafficSpikeIffHighVolume(rs: seq<Record>)
    ensures TrafficSpike in Kinds(Recommendations(rs))
      <==> Anomalies(rs) != [] && HighVolume(Volumes(Anomalies(rs)))
  {
    EmittedIffRaised(rs, TrafficSpike);
    var a := Anomalies(rs);
    RaisedCases(AnalyzeTrafficPatterns(a), AnalyzeProtocolPatterns(a), AnalyzeTemporalPatterns(a));
  }

  /** PATTERN_ANOMALY is reported iff some record is anomalous and the anomalous volumes show a burst. */
  lemma PatternAnomalyIffBurst(rs: seq<Record>)
    ensures PatternAnomaly in Kinds(Recommendations(rs))
      <==> Anomalies(rs) != [] && DetectBurstPattern(Volumes(Anomalies(rs)))
  {
    EmittedIffRaised(rs, PatternAnomaly);
    var a := Anomalies(rs);
    RaisedCases(AnalyzeTrafficPatterns(a), AnalyzeProtocolPatterns(a), AnalyzeTemporalPatterns(a));
  }

  /** PROTOCOL_ANOMALY is reported iff some record is anomalous and one protocol dominates or an unknown one occurs. */
  lemma ProtocolAnomalyIffDominanceOrUnknown(rs: seq<Record>)
    ensures var ps := Protocols(Anomalies(rs));
      ProtocolAnomaly in Kinds(Recommendations(rs))
      <==> Anomalies(rs) != [] && (ProtocolDominance(ps) || UnusualProtocols(ps) != {})
  {
    EmittedIffRaised(rs, ProtocolAnomaly);
    var a := Anomalies(rs);
    RaisedCases(AnalyzeTrafficPatterns(a), AnalyzeProtocolPatterns(a), AnalyzeTemporalPatterns(a));
  }

  /** DATA_EXFILTRATION is reported iff some record is anomalous and its timing is regular or concentrated in one hour. */
  lemma ExfiltrationIffRegularOrConcentrated(rs: seq<Record>)
    ensures var ts := Timestamps(Anomalies(rs));
      DataExfiltration in Kinds(Recommendations(rs))
      <==> Anomalies(rs) != [] && (RegularInterval(Diffs(ts)) || DetectTimeConcentration(ts))
  {
    EmittedIffRaised(rs, DataExfiltration);
    var a := Anomalies(rs);
    RaisedCases(AnalyzeTrafficPatterns(a), AnalyzeProtocolPatterns(a), AnalyzeTemporalPatterns(a));
  }

  /** Five or fewer anomalous records never produce TRAFFIC_SPIKE. */
  lemma SmallSubsetHasNoSpike(rs: seq<Record>)
    requires |Anomalies(rs)| <= 5
    ensures TrafficSpike !in Kinds(Recommendations(rs))
  {
    EmittedIffRaised(rs, TrafficSpike);
    var a := Anomalies(rs);
    RaisedCases(AnalyzeTrafficPatterns(a), AnalyzeProtocolPatterns(a), AnalyzeTemporalPatterns(a));
  }

  /** An anomalous record whose protocol is not known makes PROTOCOL_ANOMALY reported. */
  lemma UnknownProtocolIsReported(rs: seq<Record>, i: int)
    requires 0 <= i < |rs| && rs[i].anomaly == AnomalyLabel && rs[i].protocol !in KnownProtocols
    ensures ProtocolAnomaly in Kinds(Recommendations(rs))
  {
    var ps := Protocols(Anomalies(rs));
    AnomalousProtocolPresent(rs, i);
    assert rs[i].protocol in UnusualProtocols(ps);
    EmittedIffRaised(rs, ProtocolAnomaly);
    var a := Anomalies(rs);
    RaisedCases(AnalyzeTrafficPatterns(a), AnalyzeProtocolPatterns(a), AnalyzeTemporalPatterns(a));
  }

  lemma AnomalousProtocolPresent(rs: seq<Record>, i: int)
    requires 0 <= i < |rs| && rs[i].anomaly == AnomalyLabel
    ensures rs[i].protocol in Protocols(Anomalies(rs))
  {
    var a := Anomalies(rs);
    assert rs[i] in a;
    var j :| 0 <= j < |a| && a[j] == rs[i];
    assert Protocols(a)[j] == rs[i].protocol;
  }

  /** One to three anomalous records always make DATA_EXFILTRATION reported, through the hour concentration. */
  lemma FewAnomaliesReportExfiltration(rs: seq<Record>)
    requires 1 <= |Anomalies(rs)| <= 3
    ensures DataExfiltration in Kinds(Recommendations(rs))
  {
    EmittedIffRaised(rs, DataExfiltration);
    var a := Anomalies(rs);
    RaisedCases(AnalyzeTrafficPatterns(a), AnalyzeProtocolPatterns(a), AnalyzeTemporalPatterns(a));
  }

  /** A single anomalous record yields exactly PROTOCOL_ANOMALY followed by DATA_EXFILTRATION. */
  lemma SingleAnomalyReport(rs: seq<Record>)
    requires |Anomalies(rs)| == 1
    ensures Kinds(Recommendations(rs)) == [ProtocolAnomaly, DataExfiltration]
  {
    var a := Anomalies(rs);
    var tr, pr, tm := AnalyzeTrafficPatterns(a), AnalyzeProtocolPatterns(a), AnalyzeTemporalPatterns(a);
    assert pr.protocolDominance by {
      SingleProtocolDominates(Protocols(a));
    }
    SingleTriggered(tr, pr, tm);
    KindsOfRecommend(TriggeredTypes(tr, pr, tm));
  }

  lemma SingleTriggered(tr: TrafficPatterns, pr: ProtocolPatterns, tm: TemporalPatterns)
    requires !tr.highVolume && !tr.burstPattern && pr.protocolDominance && tm.timeConcentration
    ensures TriggeredTypes(tr, pr, tm) == [ProtocolAnomaly, DataExfiltration]
  {
    assert Triggers(tr, pr, tm) == [false, false, true, true];
    assert Select(AssemblyOrder, [false, false, true, true]) == [ProtocolAnomaly, DataExfiltration];
  }
}
