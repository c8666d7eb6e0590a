/**
  The mitigation engine: it filters the records to the anomalous subset,
  runs the traffic, protocol and temporal detectors over that subset, and
  assembles the recommendations, at most one per pattern type, always in the
  order TRAFFIC_SPIKE, PATTERN_ANOMALY, PROTOCOL_ANOMALY, DATA_EXFILTRATION.

  The engine's only instance state is the rule catalog, set once when it is
  built and only read afterwards; it is the constant `LoadMitigationRules()`.
 */
module MitigationEngine {
  import opened Masks
  import opened Statistics
  import opened Records
  import opened RuleCatalog
  import opened TrafficDetector
  import opened ProtocolDetector
  import opened TemporalDetector

  /** The pattern types in the order the generators append them. */
  const AssemblyOrder: seq<PatternType> := [TrafficSpike, PatternAnomaly, ProtocolAnomaly, DataExfiltration]

  /** The position of a pattern type in `AssemblyOrder`. */
  function Position(t: PatternType): (i: int)
    ensures 0 <= i < |AssemblyOrder| && AssemblyOrder[i] == t
  {
    match t
    case TrafficSpike => 0
    case PatternAnomaly => 1
    case ProtocolAnomaly => 2
    case DataExfiltration => 3
  }

  /** The condition under which a generator appends pattern type `t`, stated per type. */
  predicate Raised(t: PatternType, tr: TrafficPatterns, pr: ProtocolPatterns, tm: TemporalPatterns)
  {
    match t
    case TrafficSpike => tr.highVolume
    case PatternAnomaly => tr.burstPattern
    case ProtocolAnomaly => pr.protocolDominance || pr.unusualProtocols != {}
    case DataExfiltration => tm.regularInterval || tm.timeConcentration
  }

  /** The pattern type each detector outcome raises, one equation per type. */
  lemma RaisedCases(tr: TrafficPatterns, pr: ProtocolPatterns, tm: TemporalPatterns)
    ensures Raised(TrafficSpike, tr, pr, tm) == tr.highVolume
    ensures Raised(PatternAnomaly, tr, pr, tm) == tr.burstPattern
    ensures Raised(ProtocolAnomaly, tr, pr, tm) == (pr.protocolDominance || pr.unusualProtocols != {})
    ensures Raised(DataExfiltration, tr, pr, tm) == (tm.regularInterval || tm.timeConcentration)
  {
  }

  /** The generators' conditions as a mask over `AssemblyOrder`. */
  function Triggers(tr: TrafficPatterns, pr: ProtocolPatterns, tm: TemporalPatterns): (m: seq<bool>)
    ensures |m| == |AssemblyOrder|
    ensures forall t :: m[Position(t)] == Raised(t, tr, pr, tm)
  {
    seq(|AssemblyOrder|, i requires 0 <= i < |AssemblyOrder| => Raised(AssemblyOrder[i], tr, pr, tm))
  }


  /** The pattern types whose trigger is set in `m`, in assembly order and without repeats. */
  function Selected(m: seq<bool>): (ts: seq<PatternType>)
    requires |m| == |AssemblyOrder|
    ensures IsSubsequence(ts, AssemblyOrder)
    ensures NoDuplicates(ts)
    ensures forall t :: t in ts <==> m[Position(t)]
  {
    SelectIsSubsequence(AssemblyOrder, m);
    SelectNoDuplicates(AssemblyOrder, m);
    forall t ensures t in Select(AssemblyOrder, m) <==> m[Position(t)] {
      SelectAt(AssemblyOrder, m, Position(t));
    }
    Select(AssemblyOrder, m)
  }

  /** The pattern types the detector outputs raise, in assembly order. */
  function TriggeredTypes(tr: TrafficPatterns, pr: ProtocolPatterns, tm: TemporalPatterns): (ts: seq<PatternType>)
    ensures IsSubsequence(ts, AssemblyOrder)
    ensures NoDuplicates(ts)
    ensures forall t :: t in ts <==> Raised(t, tr, pr, tm)
  {
    Selected(Triggers(tr, pr, tm))
  }

  /** `low_volume`, `protocol_diversity` and `burst_timing` are computed but never decide what is reported. */
  lemma UnusedSignalsIgnored(tr: TrafficPatterns, pr: ProtocolPatterns, tm: TemporalPatterns,
                             tr': TrafficPatterns, pr': ProtocolPatterns, tm': TemporalPatterns)
    requires tr.highVolume == tr'.highVolume && tr.burstPattern == tr'.burstPattern
    requires pr.protocolDominance == pr'.protocolDominance && pr.unusualProtocols == pr'.unusualProtocols
    requires tm.regularInterval == tm'.regularInterval && tm.timeConcentration == tm'.timeConcentration
    ensures TriggeredTypes(tr, pr, tm) == TriggeredTypes(tr', pr', tm')
  {
    assert Triggers(tr, pr, tm) == Triggers(tr', pr', tm');
  }

  /**
    What `analyze_anomalies` returns for a dataset: nothing when no record is
    labelled "Anomaly", otherwise one catalog recommendation per triggered
    pattern type, in assembly order.
   */
  function Recommendations(rs: seq<Record>): (recs: seq<Recommendation>)
    ensures (forall i | 0 <= i < |rs| :: rs[i].anomaly != AnomalyLabel) ==> recs == []
    ensures IsSubsequence(Kinds(recs), AssemblyOrder)
    ensures NoDuplicates(Kinds(recs)) && |recs| <= |AssemblyOrder|
    ensures forall i | 0 <= i < |recs| :: recs[i] == Tagged(recs[i].kind)
  {
    var a := Anomalies(rs);
    if a == [] then
      assert Kinds([]) == [];
      []
    else
      var ts := TriggeredTypes(AnalyzeTrafficPatterns(a), AnalyzeProtocolPatterns(a), AnalyzeTemporalPatterns(a));
      KindsOfRecommend(ts);
      SubsequenceLength(ts, AssemblyOrder);
      Recommend(ts)
  }

  lemma {:induction false} SubsequenceLength<T>(a: seq<T>, b: seq<T>)
    requires IsSubsequence(a, b)
    ensures |a| <= |b|
    decreases |b|
  {
    if a != [] {
      if a[0] == b[0] {
        SubsequenceLength(a[1..], b[1..]);
      } else {
        SubsequenceLength(a, b[1..]);
      }
    }
  }

  // ---------------------------------------------------------------------------
  // The generators and the assembly, as the source builds its lists.

  /** TRAFFIC_SPIKE on a volume outlier, then PATTERN_ANOMALY on a burst. */
  method GenerateTrafficRecommendations(p: TrafficPatterns) returns (recs: seq<Recommendation>)
    ensures recs == Recommend(Select([TrafficSpike, PatternAnomaly], [p.highVolume, p.burstPattern]))
  {
    recs := [];
    if p.highVolume {
      recs := recs + [Tagged(TrafficSpike)];
    }
    if p.burstPattern {
      recs := recs + [Tagged(PatternAnomaly)];
    }
    assert [TrafficSpike, PatternAnomaly][1..] == [PatternAnomaly];
    assert [p.highVolume, p.burstPattern][1..] == [p.burstPattern];
  }

  /** PROTOCOL_ANOMALY when one protocol dominates or an unknown protocol occurs. */
  method GenerateProtocolRecommendations(p: ProtocolPatterns) returns (recs: seq<Recommendation>)
    ensures recs == Recommend(Select([ProtocolAnomaly], [p.protocolDominance || p.unusualProtocols != {}]))
  {
    recs := [];
    if p.protocolDominance || p.unusualProtocols != {} {
      recs := recs + [Tagged(ProtocolAnomaly)];
    }
  }

  /** DATA_EXFILTRATION when the timing is regular or concentrated in one hour. */
  method GenerateTemporalRecommendations(p: TemporalPatterns) returns (recs: seq<Recommendation>)
    ensures recs == Recommend(Select([DataExfiltration], [p.regularInterval || p.timeConcentration]))
  {
    recs := [];
    if p.regularInterval || p.timeConcentration {
      recs := recs + [Tagged(DataExfiltration)];
    }
  }

  /** The full pipeline: filter, stop early on an empty subset, detect, and assemble. */
  method AnalyzeAnomalies(rs: seq<Record>) returns (recs: seq<Recommendation>)
    ensures recs == Recommendations(rs)
  {
    var a := Anomalies(rs);
    if |a| == 0 {
      return [];
    }
    var traffic := AnalyzeTrafficPatterns(a);
    var protocol := AnalyzeProtocolPatterns(a);
    var temporal := AnalyzeTemporalPatterns(a);
    recs := AssembleRecommendations(traffic, protocol, temporal);
  }

  /** A fresh list extended by the traffic, protocol and temporal generators, in that order. */
  method AssembleRecommendations(traffic: TrafficPatterns, protocol: ProtocolPatterns, temporal: TemporalPatterns)
    returns (recs: seq<Recommendation>)
    ensures recs == Recommend(TriggeredTypes(traffic, protocol, temporal))
  {
    recs := [];
    var t := GenerateTrafficRecommendations(traffic);
    recs := recs + t;
    assert recs == t;
    var p := GenerateProtocolRecommendations(protocol);
    recs := recs + p;
    var m := GenerateTemporalRecommendations(temporal);
    recs := recs + m;
    assert recs == t + p + m;
    AssemblyIsTriggeredTypes(traffic, protocol, temporal);
  }

  /** The three generators' lists, concatenated, are the recommendations for the raised types. */
  lemma AssemblyIsTriggeredTypes(tr: TrafficPatterns, pr: ProtocolPatterns, tm: TemporalPatterns)
    ensures Recommend(TriggeredTypes(tr, pr, tm))
      == Recommend(Select([TrafficSpike, PatternAnomaly], [tr.highVolume, tr.burstPattern]))
       + Recommend(Select([ProtocolAnomaly], [pr.protocolDominance || pr.unusualProtocols != {}]))
       + Recommend(Select([DataExfiltration], [tm.regularInterval || tm.timeConcentration]))
  {
    var s1, s2, s3 := Select([TrafficSpike, PatternAnomaly], [tr.highVolume, tr.burstPattern]),
      Select([ProtocolAnomaly], [pr.protocolDominance || pr.unusualProtocols != {}]),
      Select([DataExfiltration], [tm.regularInterval || tm.timeConcentration]);
    TriggeredTypesSplit(tr, pr, tm);
    RecommendAppend(s1, s2);
    RecommendAppend(s1 + s2, s3);
  }

  /** The raised types split into the traffic, protocol and temporal selections. */
  lemma TriggeredTypesSplit(tr: TrafficPatterns, pr: ProtocolPatterns, tm: TemporalPatterns)
    ensures TriggeredTypes(tr, pr, tm)
      == Select([TrafficSpike, PatternAnomaly], [tr.highVolume, tr.burstPattern])
       + Select([ProtocolAnomaly], [pr.protocolDominance || pr.unusualProtocols != {}])
       + Select([DataExfiltration], [tm.regularInterval || tm.timeConcentration])
  {
    var m1, m2, m3 := [tr.highVolume, tr.burstPattern],
      [pr.protocolDominance || pr.unusualProtocols != {}],
      [tm.regularInterval || tm.timeConcentration];
    assert AssemblyOrder == [TrafficSpike, PatternAnomaly] + [ProtocolAnomaly] + [DataExfiltration];
    assert Triggers(tr, pr, tm) == m1 + m2 + m3;
    SelectAppend([TrafficSpike, PatternAnomaly] + [ProtocolAnomaly], m1 + m2, [DataExfiltration], m3);
    SelectAppend([TrafficSpike, PatternAnomaly], m1, [ProtocolAnomaly], m2);
  }

  // ---------------------------------------------------------------------------
  // Properties of the assembled list.

  /**
    A pattern type is reported iff some record is anomalous and the detector
    outputs on the anomalous subset raise it.
   */
  lemma EmittedIffRaised(rs: seq<Record>, t: PatternType)
    ensures var a := Anomalies(rs);
      t in Kinds(Recommendations(rs))
      <==> a != [] && Raised(t, AnalyzeTrafficPatterns(a), AnalyzeProtocolPatterns(a), AnalyzeTemporalPatterns(a))
  {
    var a := Anomalies(rs);
    if a != [] {
      KindsOfRecommend(TriggeredTypes(AnalyzeTrafficPatterns(a), AnalyzeProtocolPatterns(a), AnalyzeTemporalPatterns(a)));
    }
  }
}
