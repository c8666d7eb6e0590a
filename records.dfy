/**
  Traffic records as the engine receives them, the filter to the anomalous
  subset, and the three columns the detectors read.

  A record's timestamp is already parsed: it is the time in nanoseconds since
  the epoch, which is how pandas stores a parsed timestamp column.
 */
module Records {
  import opened Masks

  /** The label the upstream classifier gives an anomalous record (compared exactly). */
  const AnomalyLabel: string := "Anomaly"

  datatype Record = Record(
    timestampNs: int,
    bytesTransferred: nat,
    protocol: string,
    anomaly: string)

  /** The boolean column `anomaly == 'Anomaly'`. */
  function AnomalyMask(rs: seq<Record>): (m: seq<bool>)
    ensures |m| == |rs|
    ensures forall i | 0 <= i < |rs| :: m[i] == (rs[i].anomaly == AnomalyLabel)
  {
    seq(|rs|, i requires 0 <= i < |rs| => rs[i].anomaly == AnomalyLabel)
  }

  /**
    The anomalous subset: the records labelled exactly "Anomaly", in their
    original order, each as many times as it occurs. It is empty exactly when
    no record carries that label.
   */
  function Anomalies(rs: seq<Record>): (a: seq<Record>)
    ensures IsSubsequence(a, rs)
    ensures forall r :: r in a <==> r in rs && r.anomaly == AnomalyLabel
    ensures forall r {:trigger multiset(a)[r]} :: multiset(a)[r] == if r.anomaly == AnomalyLabel then multiset(rs)[r] else 0
    ensures a == [] <==> forall i | 0 <= i < |rs| :: rs[i].anomaly != AnomalyLabel
  {
    SelectIsSubsequence(rs, AnomalyMask(rs));
    AnomaliesMember(rs);
    AnomaliesMultiplicity(rs);
    Select(rs, AnomalyMask(rs))
  }

  lemma AnomaliesMember(rs: seq<Record>)
    ensures forall r :: r in Select(rs, AnomalyMask(rs)) <==> r in rs && r.anomaly == AnomalyLabel
  {
    forall r ensures r in Select(rs, AnomalyMask(rs)) <==> r in rs && r.anomaly == AnomalyLabel {
      SelectMember(rs, AnomalyMask(rs), r);
    }
  }

  /** A labelled record is kept as often as it occurs; any other record is dropped. */
  lemma {:induction false} AnomaliesMultiplicity(rs: seq<Record>)
    ensures forall r {:trigger multiset(Select(rs, AnomalyMask(rs)))[r]} ::
      multiset(Select(rs, AnomalyMask(rs)))[r] == if r.anomaly == AnomalyLabel then multiset(rs)[r] else 0
  {
    if rs != [] {
      var m := AnomalyMask(rs);
      assert m[1..] == AnomalyMask(rs[1..]);
      AnomaliesMultiplicity(rs[1..]);
      var h := if m[0] then [rs[0]] else [];
      assert Select(rs, m) == h + Select(rs[1..], m[1..]);
      assert rs == [rs[0]] + rs[1..];
    }
  }

  /** The `bytes_transferred` column. */
  function Volumes(a: seq<Record>): (v: seq<int>)
    ensures |v| == |a|
    ensures forall i | 0 <= i < |a| :: v[i] == a[i].bytesTransferred
  {
    seq(|a|, i requires 0 <= i < |a| => a[i].bytesTransferred)
  }

  /** The `protocol` column. */
  function Protocols(a: seq<Record>): (p: seq<string>)
    ensures |p| == |a|
    ensures forall i | 0 <= i < |a| :: p[i] == a[i].protocol
  {
    seq(|a|, i requires 0 <= i < |a| => a[i].protocol)
  }

  /** The `timestamp` column, in nanoseconds. */
  function Timestamps(a: seq<Record>): (t: seq<int>)
    ensures |t| == |a|
    ensures forall i | 0 <= i < |a| :: t[i] == a[i].timestampNs
  {
    seq(|a|, i requires 0 <= i < |a| => a[i].timestampNs)
  }
}
