/**
  The protocol detector over the `protocol` column of the anomalous subset:
  whether one protocol holds more than 70% of the records, whether more than
  two distinct protocols occur, and which protocols fall outside the known set.

  A share count/n > 0.7 is evaluated exactly as count * 10 > 7 * n.
 */
module ProtocolDetector {
  import opened Statistics
  import opened Records

  /** The protocols the engine treats as expected. */
  const KnownProtocols: set<string> := {"TCP", "UDP", "HTTP", "HTTPS", "SSH", "FTP"}

  datatype ProtocolPatterns = ProtocolPatterns(
    protocolDominance: bool,
    protocolDiversity: bool,
    unusualProtocols: set<string>)

  /** The share of `p` among the values is above 0.7, cross-multiplied. */
  predicate Dominates(ps: seq<string>, p: string)
  {
    Count(ps, p) * 10 > 7 * |ps|
  }

  /** Some entry of the normalised value counts is above 0.7. */
  function ProtocolDominance(ps: seq<string>): (r: bool)
    ensures r <==> exists i | 0 <= i < |ps| :: Dominates(ps, ps[i])
  {
    exists p | p in Distinct(ps) :: Dominates(ps, p)
  }

  /** More than two distinct protocols occur. */
  function ProtocolDiversity(ps: seq<string>): (r: bool)
    ensures r ==> |ps| >= 3
  {
    |Distinct(ps)| > 2
  }

  /** The protocols that occur and are not known. */
  function UnusualProtocols(ps: seq<string>): (u: set<string>)
    ensures forall p :: p in u <==> p in ps && p !in KnownProtocols
  {
    Distinct(ps) - KnownProtocols
  }

  /** The three protocol signals of the anomalous subset. */
  function AnalyzeProtocolPatterns(a: seq<Record>): (p: ProtocolPatterns)
    ensures p.protocolDominance == ProtocolDominance(Protocols(a))
    ensures p.protocolDiversity == ProtocolDiversity(Protocols(a))
    ensures p.unusualProtocols == UnusualProtocols(Protocols(a))
    ensures forall i | 0 <= i < |a| :: a[i].protocol !in KnownProtocols ==> a[i].protocol in p.unusualProtocols
    ensures p.protocolDiversity ==> |a| >= 3
  {
    var ps := Protocols(a);
    ProtocolPatterns(ProtocolDominance(ps), ProtocolDiversity(ps), UnusualProtocols(ps))
  }

  /** The real-valued share of `p` among the values. */
  ghost function Share(ps: seq<string>, p: string): real
    requires ps != []
  {
    (Count(ps, p) as real) / (|ps| as real)
  }

  lemma DominatesIsShareAboveSeventyPercent(ps: seq<string>, p: string)
    requires ps != []
    ensures Dominates(ps, p) <==> Share(ps, p) > 0.7
  {
    var c, n := Count(ps, p) as real, |ps| as real;
    QuotientAbove(c, n, 0.7);
    assert ((Count(ps, p) * 10) as real) == 10.0 * c;
    assert ((7 * |ps|) as real) == 7.0 * n;
  }

  lemma {:induction false} CountAll(s: seq<string>, x: string)
    requires forall i | 0 <= i < |s| :: s[i] == x
    ensures Count(s, x) == |s|
  {
    if s != [] {
      CountAll(s[1..], x);
    }
  }

  lemma {:induction false} CountPair(s: seq<string>, x: string, y: string)
    requires x != y
    ensures Count(s, x) + Count(s, y) <= |s|
  {
    if s != [] {
      CountPair(s[1..], x, y);
    }
  }

  /** A subset with one distinct protocol (a single record, say) is dominated by it. */
  lemma SingleProtocolDominates(ps: seq<string>)
    requires ps != [] && forall i | 0 <= i < |ps| :: ps[i] == ps[0]
    ensures ProtocolDominance(ps)
  {
    CountAll(ps, ps[0]);
    assert Dominates(ps, ps[0]);
  }

  /** Shares sum to at most one, so at most one protocol can be above 0.7. */
  lemma AtMostOneDominant(ps: seq<string>, p: string, q: string)
    requires p != q && Dominates(ps, p)
    ensures !Dominates(ps, q)
  {
    CountPair(ps, p, q);
  }
}
