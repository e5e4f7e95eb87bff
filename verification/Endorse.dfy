/** Endorsement counting (phase3/endorse-core.mjs).

  A signature is modelled by the key it was made with and the message it was made over, or as
  bytes that verify under no key. Reasons collected for the log are counted, not spelled out. */
module Endorse {
  import opened Wrappers
  import Quorum

  // Node ids are strings in the source; only their equality and their sort order matter.
  type NodeId = nat
  type Key = nat

  datatype Signature<+M> = SignedBy(key: Key, message: M) | Forged(bytes: nat)

  datatype Endorsement<+M> = Malformed | Endorsement(nodeId: NodeId, sig: Signature<M>)

  // A roster entry may lack a usable public key; it still counts towards the roster size.
  type Roster = map<NodeId, Option<Key>>

  predicate Verifies<M(==)>(message: M, key: Key, sig: Signature<M>) {
    sig == SignedBy(key, message)
  }

  /** Does e carry a valid signature of a roster member over the message? */
  predicate Valid<M(==)>(message: M, roster: Roster, e: Endorsement<M>) {
    && e.Endorsement?
    && e.nodeId in roster
    && roster[e.nodeId].Some?
    && Verifies(message, roster[e.nodeId].value, e.sig)
  }

  /** The roster members with at least one valid endorsement in the input. */
  ghost function ValidSigners<M>(message: M, es: seq<Endorsement<M>>, roster: Roster): set<NodeId> {
    set i | 0 <= i < |es| && Valid(message, roster, es[i]) :: es[i].nodeId
  }

  function Ids<M>(es: seq<Endorsement<M>>): set<NodeId> {
    set i | 0 <= i < |es| && es[i].Endorsement? :: es[i].nodeId
  }

  /** What one pass over the endorsements keeps: the first valid one of each member. */
  function Kept<M(==)>(message: M, es: seq<Endorsement<M>>, roster: Roster): (kept: seq<Endorsement<M>>)
  {
    if es == [] then []
    else
      var rest, e := Kept(message, es[..|es| - 1], roster), es[|es| - 1];
      if Valid(message, roster, e) && e.nodeId !in Ids(rest) then rest + [e] else rest
  }

  ghost predicate Distinct<M>(es: seq<Endorsement<M>>) {
    && (forall i | 0 <= i < |es| :: es[i].Endorsement?)
    && (forall i, j | 0 <= i < j < |es| :: es[i].nodeId != es[j].nodeId)
  }

  lemma DistinctCount<M>(es: seq<Endorsement<M>>)
    requires Distinct(es)
    ensures |Ids(es)| == |es|
  {
    if es != [] {
      var init, e := es[..|es| - 1], es[|es| - 1];
      DistinctCount(init);
      assert Ids(es) == Ids(init) + {e.nodeId} by {
        assert forall i | 0 <= i < |init| :: es[i] == init[i];
      }
      assert e.nodeId !in Ids(init);
    }
  }

  lemma IdsAppend<M>(es: seq<Endorsement<M>>, e: Endorsement<M>)
    ensures Ids(es + [e]) == Ids(es) + if e.Endorsement? then {e.nodeId} else {}
  {
    var all := es + [e];
    assert forall i | 0 <= i < |es| :: all[i] == es[i];
    assert all[|es|] == e;
  }

  lemma SignersAppend<M>(message: M, es: seq<Endorsement<M>>, e: Endorsement<M>, roster: Roster)
    ensures ValidSigners(message, es + [e], roster) ==
            ValidSigners(message, es, roster) + if Valid(message, roster, e) then {e.nodeId} else {}
  {
    var all := es + [e];
    assert forall i | 0 <= i < |es| :: all[i] == es[i];
    assert all[|es|] == e;
  }

  /** The kept list holds exactly one entry per member with a valid signature, and nothing else. */
  lemma {:induction false} KeptIsValidSigners<M>(message: M, es: seq<Endorsement<M>>, roster: Roster)
    ensures Distinct(Kept(message, es, roster))
    ensures forall e | e in Kept(message, es, roster) :: e in es && Valid(message, roster, e)
    ensures Ids(Kept(message, es, roster)) == ValidSigners(message, es, roster)
    ensures |Kept(message, es, roster)| == |ValidSigners(message, es, roster)|
  {
    if es != [] {
      var init, e := es[..|es| - 1], es[|es| - 1];
      assert es == init + [e];
      KeptIsValidSigners(message, init, roster);
      SignersAppend(message, init, e, roster);
      if Valid(message, roster, e) {
        IdsAppend(Kept(message, init, roster), e);
        DistinctAppend(Kept(message, init, roster), e);
      }
    }
    DistinctCount(Kept(message, es, roster));
  }

  /** The i-th entry is valid, and none before it is a valid one of the same member. */
  predicate FirstValid<M(==)>(message: M, es: seq<Endorsement<M>>, roster: Roster, i: nat) {
    i < |es| && Valid(message, roster, es[i]) && forall j | 0 <= j < i && Valid(message, roster, es[j]) :: es[j].nodeId != es[i].nodeId
  }

  ghost predicate IsFirst<M>(message: M, es: seq<Endorsement<M>>, roster: Roster, e: Endorsement<M>) {
    exists i: nat :: FirstValid(message, es, roster, i) && es[i] == e
  }

  lemma IsFirstMore<M>(message: M, es: seq<Endorsement<M>>, roster: Roster, e: Endorsement<M>, more: Endorsement<M>)
    requires IsFirst(message, es, roster, e)
    ensures IsFirst(message, es + [more], roster, e)
  {
    hide Valid;
    var i: nat :| FirstValid(message, es, roster, i) && es[i] == e;
    assert forall j | 0 <= j <= i :: (es + [more])[j] == es[j];
    assert FirstValid(message, es + [more], roster, i);
  }

  lemma LastIsFirst<M>(message: M, es: seq<Endorsement<M>>, roster: Roster, e: Endorsement<M>)
    requires Valid(message, roster, e) && e.nodeId !in ValidSigners(message, es, roster)
    ensures IsFirst(message, es + [e], roster, e)
  {
    assert forall j | 0 <= j < |es| :: (es + [e])[j] == es[j];
    assert FirstValid(message, es + [e], roster, |es|);
  }

  /** Each entry kept is the first valid one of its member in the input. */
  lemma {:induction false} KeptAreFirst<M>(message: M, es: seq<Endorsement<M>>, roster: Roster)
    ensures forall e | e in Kept(message, es, roster) :: IsFirst(message, es, roster, e)
  {
    if es != [] {
      hide IsFirst, Valid, ValidSigners;
      var init, e := es[..|es| - 1], es[|es| - 1];
      assert es == init + [e];
      KeptAreFirst(message, init, roster);
      KeptIsValidSigners(message, init, roster);
      forall x | x in Kept(message, es, roster) ensures IsFirst(message, es, roster, x) {
        if x in Kept(message, init, roster) {
          IsFirstMore(message, init, roster, x, e);
        } else {
          LastIsFirst(message, init, roster, e);
        }
      }
    }
  }

  lemma DistinctAppend<M>(es: seq<Endorsement<M>>, e: Endorsement<M>)
    requires e.Endorsement?
    ensures Distinct(es + [e]) <==> Distinct(es) && e.nodeId !in Ids(es)
  {
    var all := es + [e];
    assert all[|es|] == e;
    assert forall i | 0 <= i < |es| :: all[i] == es[i];
  }

  /** Order, duplicates and junk do not matter: inputs with the same valid entries count the same
    members, whatever else they contain and in whatever order. */
  lemma CountIgnoresOrderAndJunk<M>(message: M, es1: seq<Endorsement<M>>, es2: seq<Endorsement<M>>, roster: Roster)
    requires forall e | Valid(message, roster, e) :: e in es1 <==> e in es2
    ensures Ids(Kept(message, es1, roster)) == Ids(Kept(message, es2, roster))
    ensures |Kept(message, es1, roster)| == |Kept(message, es2, roster)|
  {
    KeptIsValidSigners(message, es1, roster);
    KeptIsValidSigners(message, es2, roster);
    SignersInclude(message, es1, es2, roster);
    SignersInclude(message, es2, es1, roster);
  }

  lemma SignersInclude<M>(message: M, es1: seq<Endorsement<M>>, es2: seq<Endorsement<M>>, roster: Roster)
    requires forall e | e in es1 && Valid(message, roster, e) :: e in es2
    ensures ValidSigners(message, es1, roster) <= ValidSigners(message, es2, roster)
  {
    forall id | id in ValidSigners(message, es1, roster)
      ensures id in ValidSigners(message, es2, roster)
    {
      var i :| 0 <= i < |es1| && Valid(message, roster, es1[i]) && es1[i].nodeId == id;
      assert es1[i] in es2;
      var j :| 0 <= j < |es2| && es2[j] == es1[i];
    }
  }

  /** Aggregation: deduplicate, verify each signature against the roster key, count.
    An absent threshold defaults to two thirds of the roster. */
  method CollectQC<M(==)>(message: M, endorsements: seq<Endorsement<M>>, roster: Roster, threshold: Option<nat>)
    returns (ok: bool, kept: seq<Endorsement<M>>, ignored: nat, required: nat)
    ensures kept == Kept(message, endorsements, roster)
    ensures ignored + |kept| == |endorsements|
    ensures required == threshold.GetOr(Quorum.CeilTwoThirds(|roster|))
    ensures ok <==> |ValidSigners(message, endorsements, roster)| >= required
  {
    required := if threshold.Some? then threshold.value else Quorum.CeilTwoThirds(|roster|);
    ignored := 0;
    var seen: set<NodeId> := {};
    kept := [];
    for i := 0 to |endorsements|
      invariant kept == Kept(message, endorsements[..i], roster)
      invariant seen == Ids(kept)
      invariant ignored + |kept| == i
    {
      var e := endorsements[i];
      assert endorsements[..i + 1][..i] == endorsements[..i];
      if !e.Endorsement? || e.nodeId in seen || e.nodeId !in roster || roster[e.nodeId].None?
         || !Verifies(message, roster[e.nodeId].value, e.sig)
      {
        ignored := ignored + 1;
        continue;
      }
      seen := seen + {e.nodeId};
      IdsAppend(kept, e);
      kept := kept + [e];
    }
    assert endorsements[..|endorsements|] == endorsements;
    KeptIsValidSigners(message, endorsements, roster);
    ok := |kept| >= required;
  }

  /** A quorum certificate as it travels: the numbers in it are claims, not facts. */
  datatype Certificate<+M> = Certificate(
    message: M, endorsements: seq<Endorsement<M>>, rosterSize: Option<int>, threshold: Option<int>)

  /** What full verification demands of a certificate. */
  ghost predicate Acceptable<M>(qc: Certificate<M>, roster: Roster, gatePasses: bool, qualified: set<NodeId>) {
    && (qc.rosterSize.Some? ==> qc.rosterSize.value == |roster|)
    && (qc.threshold.Some? ==> qc.threshold.value == Quorum.CeilTwoThirds(|roster|))
    && (forall e | e in qc.endorsements :: Valid(qc.message, roster, e) && e.nodeId in qualified)
    && Distinct(qc.endorsements)
    && |ValidSigners(qc.message, qc.endorsements, roster)| >= Quorum.CeilTwoThirds(|roster|)
    && gatePasses
  }

  lemma AllValidSigners<M>(message: M, es: seq<Endorsement<M>>, roster: Roster)
    requires Distinct(es) && forall e | e in es :: Valid(message, roster, e)
    ensures |ValidSigners(message, es, roster)| == |es|
  {
    assert ValidSigners(message, es, roster) == Ids(es);
    DistinctCount(es);
  }

  /** Every endorsement valid, by a qualified member, and no member twice. */
  ghost predicate AllGood<M>(message: M, es: seq<Endorsement<M>>, roster: Roster, qualified: set<NodeId>) {
    && (forall e | e in es :: Valid(message, roster, e) && e.nodeId in qualified)
    && Distinct(es)
  }

  lemma AllGoodAppend<M>(message: M, es: seq<Endorsement<M>>, e: Endorsement<M>, roster: Roster, qualified: set<NodeId>)
    ensures AllGood(message, es + [e], roster, qualified) <==>
            && AllGood(message, es, roster, qualified)
            && Valid(message, roster, e) && e.nodeId in qualified && e.nodeId !in Ids(es)
  {
    assert e in es + [e] && forall x | x in es :: x in es + [e];
    if e.Endorsement? {
      DistinctAppend(es, e);
    }
  }

  /** Full verification: every endorsement must be well formed, by a roster member, valid, the
    member's only one and by a qualified member; the numbers are recomputed from the roster and
    the envelope is put through the gates again. */
  method VerifyQC<M(==)>(qc: Certificate<M>, roster: Roster, gatePasses: bool, qualified: set<NodeId>)
    returns (pass: bool, effective: nat)
    ensures pass <==> Acceptable(qc, roster, gatePasses, qualified)
  {
    var required := Quorum.CeilTwoThirds(|roster|);
    var bad := qc.rosterSize.Some? && qc.rosterSize.value != |roster|;
    bad := bad || (qc.threshold.Some? && qc.threshold.value != required);
    var anyBad, seen: set<NodeId> := false, {};
    effective := 0;
    for i := 0 to |qc.endorsements|
      invariant !anyBad <==> AllGood(qc.message, qc.endorsements[..i], roster, qualified)
      invariant !anyBad ==> effective == i && seen == Ids(qc.endorsements[..i])
    {
      var e := qc.endorsements[i];
      assert qc.endorsements[..i + 1] == qc.endorsements[..i] + [e];
      AllGoodAppend(qc.message, qc.endorsements[..i], e, roster, qualified);
      IdsAppend(qc.endorsements[..i], e);
      if !e.Endorsement? {
        anyBad := true;
        continue;
      }
      if e.nodeId !in roster || roster[e.nodeId].None? || !Verifies(qc.message, roster[e.nodeId].value, e.sig) {
        anyBad := true;
        continue;
      }
      if e.nodeId in seen {
        anyBad := true;
        continue;
      }
      seen := seen + {e.nodeId};
      if e.nodeId !in qualified {
        anyBad := true;
        continue;
      }
      effective := effective + 1;
    }
    assert qc.endorsements[..|qc.endorsements|] == qc.endorsements;
    if !anyBad {
      AllValidSigners(qc.message, qc.endorsements, roster);
    }
    pass := !bad && !anyBad && effective >= required && gatePasses;
  }

  /** A certificate aggregated with the default threshold passes full verification exactly when
    the gate passes and every signer holds a qualification: aggregation adds nothing else to fail. */
  lemma AggregatedCertificateIsAccepted<M>(message: M, es: seq<Endorsement<M>>, roster: Roster,
                                           gatePasses: bool, qualified: set<NodeId>)
    requires |ValidSigners(message, es, roster)| >= Quorum.CeilTwoThirds(|roster|)
    ensures Acceptable(
              Certificate(message, Kept(message, es, roster), Some(|roster|), Some(Quorum.CeilTwoThirds(|roster|))),
              roster, gatePasses, qualified)
            <==> gatePasses && ValidSigners(message, es, roster) <= qualified
  {
    var kept := Kept(message, es, roster);
    KeptIsValidSigners(message, es, roster);
    AllValidSigners(message, kept, roster);
    assert (forall e | e in kept :: e.nodeId in qualified) <==> Ids(kept) <= qualified by {
      if Ids(kept) <= qualified {
        forall e | e in kept ensures e.nodeId in qualified {
          assert e.nodeId in Ids(kept);
        }
      }
    }
  }
}
