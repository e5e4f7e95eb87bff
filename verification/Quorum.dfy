/** Vote thresholds and the set-level intersection facts every safety argument rests on. */
module Quorum {
  // The consensus node computes its threshold once from the configured n and f; the membership layer
  // recomputes f from the roster size. Both use the larger of 2f+1 and two thirds of n, rounded up.

  /** Two thirds of n, rounded up. */
  function CeilTwoThirds(n: nat): (t: nat)
    ensures 2 * n <= 3 * t < 2 * n + 3
  {
    (2 * n + 2) / 3
  }

  function Threshold(n: nat, f: nat): (t: nat)
    ensures 2 * f + 1 <= t && 2 * n <= 3 * t
    ensures 2 * f + 1 <= n ==> t <= n
  {
    var t := CeilTwoThirds(n);
    if 2 * f + 1 < t then t else 2 * f + 1
  }

  /** The fault budget recomputed from a roster of n members (an empty roster yields -1). */
  function FaultBudget(n: nat): (f: int)
    ensures 3 * f <= n - 1 < 3 * f + 3
  {
    (n - 1) / 3
  }

  /** The threshold recomputed after a roster change. */
  function RosterThreshold(n: nat): (t: nat)
    ensures t == CeilTwoThirds(n)
  {
    var f, t := FaultBudget(n), CeilTwoThirds(n);
    if 2 * f + 1 < t then t else 2 * f + 1
  }

  lemma SubsetCardinality<T>(a: set<T>, b: set<T>)
    requires a <= b
    ensures |a| <= |b|
  {
    assert b == a + (b - a);
    assert |b| == |a| + |b - a|;
  }

  /** Inclusion-exclusion inside a common superset. */
  lemma OverlapBound<T>(all: set<T>, a: set<T>, b: set<T>)
    requires a <= all && b <= all
    ensures |a * b| >= |a| + |b| - |all|
  {
    assert |a + b| == |a| + |b| - |a * b|;
    SubsetCardinality(a + b, all);
  }

  /** Any two quorums share more members than there can be faulty ones, for every n and f. */
  lemma QuorumOverlap<T>(members: set<T>, n: nat, f: nat, q1: set<T>, q2: set<T>)
    requires |members| <= n
    requires q1 <= members && |q1| >= Threshold(n, f)
    requires q2 <= members && |q2| >= Threshold(n, f)
    ensures |q1 * q2| >= f + 1
  {
    OverlapBound(members, q1, q2);
  }

  /** Hence two quorums share an honest member. */
  lemma HonestOverlap<T>(members: set<T>, honest: set<T>, n: nat, f: nat, q1: set<T>, q2: set<T>) returns (h: T)
    requires |members| <= n && |members - honest| <= f
    requires q1 <= members && |q1| >= Threshold(n, f)
    requires q2 <= members && |q2| >= Threshold(n, f)
    ensures h in q1 && h in q2 && h in honest
  {
    QuorumOverlap(members, n, f, q1, q2);
    if q1 * q2 <= members - honest {
      SubsetCardinality(q1 * q2, members - honest);
      assert false;
    }
    h :| h in q1 * q2 && h !in members - honest;
  }

  /** One join or one expulsion apart, a quorum of the smaller roster and a quorum of the larger
    one share at least f+1 members of the smaller roster, f being the smaller roster's budget. */
  lemma OverlapAcrossOneChange<T>(small: set<T>, extra: T, qSmall: set<T>, qLarge: set<T>)
    requires extra !in small
    requires qSmall <= small && |qSmall| >= RosterThreshold(|small|)
    requires qLarge <= small + {extra} && |qLarge| >= RosterThreshold(|small| + 1)
    ensures |qSmall * (qLarge * small)| >= FaultBudget(|small|) + 1
  {
    assert |small + {extra}| == |small| + 1;
    var kept := qLarge * small;
    assert qLarge <= kept + {extra};
    SubsetCardinality(qLarge, kept + {extra});
    OverlapBound(small, qSmall, kept);
  }

  /** The bound is tight: quorums that meet in exactly f+1 members exist one change apart, so no
    larger overlap may be relied on. */
  lemma OverlapAcrossOneChangeIsTight()
    ensures exists small: set<nat>, extra: nat, qSmall: set<nat>, qLarge: set<nat> ::
              && extra !in small && qSmall <= small && qLarge <= small + {extra}
              && |qSmall| == RosterThreshold(|small|) && |qLarge| == RosterThreshold(|small| + 1)
              && |qSmall * (qLarge * small)| == FaultBudget(|small|) + 1
  {
    var small, qSmall, qLarge: set<nat> := {0, 1, 2, 3}, {0, 1, 2}, {2, 3, 4, 1};
    assert |small| == 4 && |qSmall| == 3 && |qLarge| == 4;
    assert qSmall * (qLarge * small) == {1, 2};
    assert FaultBudget(4) + 1 == 2;
    assert 4 !in small && qLarge <= small + {4};
  }

  /** A set has subsets of every smaller size. */
  lemma {:induction false} SubsetOfSize<T>(s: set<T>, k: nat) returns (sub: set<T>)
    requires k <= |s|
    ensures sub <= s && |sub| == k
  {
    if k == 0 {
      sub := {};
    } else {
      var x :| x in s;
      sub := SubsetOfSize(s - {x}, k - 1);
      sub := sub + {x};
    }
  }

  predicate AlwaysMeet<T(!new)>(before: set<T>, quorumBefore: nat, after: set<T>, quorumAfter: nat) {
    forall p, q | p <= before && |p| >= quorumBefore && q <= after && |q| >= quorumAfter :: p * q != {}
  }

  /** Two rosters of sizes 3f+1 and 3g+1 whose quorums are of sizes 2f+1 and 2g+1: every quorum of the
    one meets every quorum of the other if and only if they share at least f+g+1 members. */
  lemma QuorumsMeetIff<T(!new)>(before: set<T>, f: nat, after: set<T>, g: nat)
    requires |before| == 3 * f + 1 && |after| == 3 * g + 1
    ensures AlwaysMeet(before, 2 * f + 1, after, 2 * g + 1) <==> |before * after| >= f + g + 1
  {
    var common := before * after;
    if |common| >= f + g + 1 {
      forall p, q | p <= before && |p| >= 2 * f + 1 && q <= after && |q| >= 2 * g + 1 ensures p * q != {} {
        OverlapBound(before, p, common);
        OverlapBound(after, q, common);
        OverlapBound(common, p * common, q * common);
        assert (p * common) * (q * common) <= p * q;
        SubsetCardinality((p * common) * (q * common), p * q);
      }
    } else {
      var p, q := DisjointQuorums(before, f, after, g);
    }
  }

  lemma DisjointQuorums<T>(before: set<T>, f: nat, after: set<T>, g: nat) returns (p: set<T>, q: set<T>)
    requires |before| == 3 * f + 1 && |after| == 3 * g + 1 && |before * after| <= f + g
    ensures p <= before && |p| >= 2 * f + 1 && q <= after && |q| >= 2 * g + 1 && p * q == {}
  {
    var common := before * after;
    assert before == (before - after) + common && after == (after - before) + common;
    var a := if |common| > f then |common| - f else 0;
    var forP := SubsetOfSize(common, a);
    var forQ := common - forP;
    p, q := (before - after) + forP, (after - before) + forQ;
    assert |common| == |forP| + |forQ| by { assert common == forP + forQ; }
    assert |before| == |before - after| + |common|;
    assert |after| == |after - before| + |common|;
  }
}
