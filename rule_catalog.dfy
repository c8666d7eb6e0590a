/**
  The rule catalog: a fixed mapping from a pattern-type name to a description,
  an ordered list of three recommended actions and a severity. The engine
  builds it once and only reads it afterwards; a recommendation is a copy of
  one entry tagged with its pattern type.
 */
module RuleCatalog {

  /** The pattern types the catalog knows, declared in the order the engine emits them. */
  datatype PatternType = TrafficSpike | PatternAnomaly | ProtocolAnomaly | DataExfiltration
  {
    /** The catalog key, which is also the recommendation's `type` field. */
    function Name(): string
    {
      match this
      case TrafficSpike => "TRAFFIC_SPIKE"
      case PatternAnomaly => "PATTERN_ANOMALY"
      case ProtocolAnomaly => "PROTOCOL_ANOMALY"
      case DataExfiltration => "DATA_EXFILTRATION"
    }
  }

  /** Severity levels; the built-in entries use only Medium and High. */
  datatype Severity = Low | Medium | High

  datatype RuleEntry = RuleEntry(description: string, recommendations: seq<string>, severity: Severity)

  /** The built-in catalog, keyed by pattern-type name. */
  function LoadMitigationRules(): (rules: map<string, RuleEntry>)
    ensures |rules| == 4
    ensures forall t: PatternType :: t.Name() in rules
    ensures forall k | k in rules :: |rules[k].recommendations| == 3
  {
    map[
      "TRAFFIC_SPIKE" := RuleEntry(
        "Unusual spike in network traffic",
        ["Implement rate limiting", "Enable traffic throttling", "Deploy DDoS protection"],
        High),
      "PROTOCOL_ANOMALY" := RuleEntry(
        "Unusual protocol behavior",
        ["Update firewall rules", "Enable deep packet inspection", "Implement protocol validation"],
        Medium),
      "PATTERN_ANOMALY" := RuleEntry(
        "Unusual traffic patterns",
        ["Enable behavioral analysis", "Update IDS signatures", "Implement traffic segmentation"],
        Medium),
      "DATA_EXFILTRATION" := RuleEntry(
        "Potential data exfiltration",
        ["Enable data loss prevention", "Implement egress filtering", "Monitor data transfer patterns"],
        High)
    ]
  }

  /** The catalog entry for a pattern type; the lookup never misses. */
  function Rule(t: PatternType): (e: RuleEntry)
    ensures |e.recommendations| == 3
    ensures e.severity == High <==> t == TrafficSpike || t == DataExfiltration
    ensures e.severity == Medium <==> t == PatternAnomaly || t == ProtocolAnomaly
  {
    LoadMitigationRules()[t.Name()]
  }

  /** One recommendation: the `type` tag followed by the fields of its catalog entry. */
  datatype Recommendation = Recommendation(
    kind: PatternType,
    description: string,
    recommendations: seq<string>,
    severity: Severity)

  /** The catalog entry for `t`, tagged with `t`. */
  function Tagged(t: PatternType): (r: Recommendation)
    ensures r.kind == t
    ensures r.description == Rule(t).description
    ensures r.recommendations == Rule(t).recommendations && |r.recommendations| == 3
    ensures r.severity == Rule(t).severity
  {
    var e := Rule(t);
    Recommendation(t, e.description, e.recommendations, e.severity)
  }

  /** The recommendations for a list of pattern types, one per type, in order. */
  function Recommend(ts: seq<PatternType>): (rs: seq<Recommendation>)
    ensures |rs| == |ts|
    ensures forall i | 0 <= i < |ts| :: rs[i] == Tagged(ts[i])
  {
    seq(|ts|, i requires 0 <= i < |ts| => Tagged(ts[i]))
  }

  /** The `type` of each recommendation, in order. */
  function Kinds(rs: seq<Recommendation>): (ts: seq<PatternType>)
    ensures |ts| == |rs|
    ensures forall i | 0 <= i < |rs| :: ts[i] == rs[i].kind
  {
    seq(|rs|, i requires 0 <= i < |rs| => rs[i].kind)
  }

  lemma RecommendAppend(a: seq<PatternType>, b: seq<PatternType>)
    ensures Recommend(a + b) == Recommend(a) + Recommend(b)
  {
    assert |Recommend(a + b)| == |Recommend(a) + Recommend(b)|;
    forall i | 0 <= i < |a + b|
      ensures Recommend(a + b)[i] == (Recommend(a) + Recommend(b))[i]
    {
      if i < |a| {
        assert (a + b)[i] == a[i];
      } else {
        assert (a + b)[i] == b[i - |a|];
      }
    }
  }

  lemma KindsOfRecommend(ts: seq<PatternType>)
    ensures Kinds(Recommend(ts)) == ts
  {
  }
}
