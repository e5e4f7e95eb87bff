/** The safety argument, told about one object: the global log of honest votes in time order. */
module VoteLog {
  // Three rules about single votes (what each honest node checks before it signs) imply that certified
  // blocks cannot conflict. Nothing here looks at node state; Protocol.dfy shows that every reachable
  // log obeys the rules.

  import opened Endorse
  import opened Blocks
  import Quorum

  /** Who takes part, and who of them is honest. Every member signs with its own key. */
  datatype Deployment = Deployment(roster: seq<NodeId>, keys: map<NodeId, Key>, n: nat, f: nat, honest: set<NodeId>) {
    function Members(): set<NodeId> {
      set i | 0 <= i < |roster| :: roster[i]
    }

    /** Each member signs with a key of its own. */
    predicate OwnKeys() {
      && keys.Keys == Members()
      && (forall a, b | a in keys && b in keys && keys[a] == keys[b] :: a == b)
    }

    predicate Sizes() {
      && n > 0 && 2 * f + 1 <= n
      && |Members()| <= n
      && honest <= Members()
      && |Members() - honest| <= f
    }

    /** What node construction demands of a roster, with at most f members faulty. */
    predicate Valid() {
      && n > 0 && |roster| == n && 2 * f + 1 <= n
      && honest <= Members()
      && |Members() - honest| <= f
      && OwnKeys()
    }
  }

  lemma ValidSizes(d: Deployment)
    requires d.Valid()
    ensures d.Sizes()
  {
    MembersBound(d.roster);
  }

  lemma {:induction false} MembersBound(roster: seq<NodeId>)
    ensures |set i | 0 <= i < |roster| :: roster[i]| <= |roster|
  {
    if roster != [] {
      var init, last := roster[..|roster| - 1], roster[|roster| - 1];
      MembersBound(init);
      assert (set i | 0 <= i < |roster| :: roster[i]) == (set i | 0 <= i < |init| :: init[i]) + {last};
    }
  }

  datatype Vote = Vote(node: NodeId, block: Hash)

  type Log = seq<Vote>

  function Voters(log: Log, b: Hash): set<NodeId> {
    set i | 0 <= i < |log| && log[i].block == b :: log[i].node
  }

  /** Everyone who may have signed for b: its honest voters and all faulty members. */
  function Support(d: Deployment, log: Log, b: Hash): set<NodeId> {
    (Voters(log, b) * d.honest) + (d.Members() - d.honest)
  }

  /** A quorum certificate for b can exist once this holds. */
  predicate Certified(d: Deployment, log: Log, b: Hash) {
    b.Digest? && |Support(d, log, b)| >= Quorum.Threshold(d.n, d.f)
  }

  predicate Rule1(log: Log, i: nat)
    requires i < |log| && forall k | 0 <= k < |log| :: log[k].block.Digest?
  {
    forall j | 0 <= j < i && log[j].node == log[i].node :: log[j].block.content.view < log[i].block.content.view
  }

  predicate Rule2(d: Deployment, log: Log, i: nat)
    requires i < |log| && log[i].block.Digest?
  {
    var parent := log[i].block.content.parentHash;
    parent == Genesis || Certified(d, log[..i], parent)
  }

  predicate Rule3(log: Log, i: nat)
    requires i < |log| && forall k | 0 <= k < |log| :: log[k].block.Digest?
  {
    forall j | 0 <= j < i && log[j].node == log[i].node ::
      var locked := log[j].block.content.parentHash;
      locked != Genesis ==> Extends(log[i].block.content.parentHash, locked)
  }

  /** What honest nodes guarantee about the log: each node votes in strictly increasing views
    (rule 1), only for children of genesis or of a block already certified (rule 2), and only for
    blocks whose parent extends the parent of everything it voted for before (rule 3). */
  predicate Lawful(d: Deployment, log: Log) {
    && (forall k | 0 <= k < |log| :: log[k].node in d.honest && log[k].block.Digest?)
    && (forall i | 0 <= i < |log| :: Rule1(log, i) && Rule2(d, log, i) && Rule3(log, i))
  }

  /** Appending a vote that obeys the rules keeps the log lawful. */
  lemma LawfulAppend(d: Deployment, log: Log, v: Vote)
    requires Lawful(d, log) && v.node in d.honest && v.block.Digest?
    requires forall j | 0 <= j < |log| && log[j].node == v.node :: log[j].block.content.view < v.block.content.view
    requires v.block.content.parentHash == Genesis || Certified(d, log, v.block.content.parentHash)
    requires forall j | 0 <= j < |log| && log[j].node == v.node ::
               var locked := log[j].block.content.parentHash;
               locked != Genesis ==> Extends(v.block.content.parentHash, locked)
    ensures Lawful(d, log + [v])
  {
    var more, n := log + [v], |log|;
    assert more[..n] == log && more[n] == v;
    assert forall k | 0 <= k < n :: more[k] == log[k];
    forall i | 0 <= i < n
      ensures Rule1(more, i) && Rule2(d, more, i) && Rule3(more, i)
    {
      assert Rule1(log, i) && Rule2(d, log, i) && Rule3(log, i);
      assert more[..i] == log[..i];
    }
    assert Rule1(more, n) && Rule2(d, more, n) && Rule3(more, n);
  }

  lemma CertifiedMonotone(d: Deployment, log: Log, more: Log, b: Hash)
    requires log <= more && Certified(d, log, b)
    ensures Certified(d, more, b)
  {
    assert forall i | 0 <= i < |log| :: log[i] == more[i];
    assert Voters(log, b) <= Voters(more, b);
    Quorum.SubsetCardinality(Support(d, log, b), Support(d, more, b));
  }

  /** Two certified blocks have an honest voter in common. */
  lemma CommonVoter(d: Deployment, log1: Log, b1: Hash, log2: Log, b2: Hash) returns (i: nat, j: nat)
    requires d.Sizes() && Certified(d, log1, b1) && Certified(d, log2, b2)
    ensures i < |log1| && log1[i].block == b1
    ensures j < |log2| && log2[j].block == b2
    ensures log1[i].node == log2[j].node && log1[i].node in d.honest
  {
    var h := Quorum.HonestOverlap(d.Members(), d.honest, d.n, d.f, Support(d, log1, b1), Support(d, log2, b2));
    i :| 0 <= i < |log1| && log1[i].block == b1 && log1[i].node == h;
    j :| 0 <= j < |log2| && log2[j].block == b2 && log2[j].node == h;
  }

  /** A certified block has an honest voter, and the first vote it ever got is well defined. */
  lemma FirstVote(d: Deployment, log: Log, b: Hash) returns (i: nat)
    requires d.Sizes() && Certified(d, log, b)
    ensures i < |log| && log[i].block == b
    ensures forall j | 0 <= j < i :: log[j].block != b
  {
    var k, _ := CommonVoter(d, log, b, log, b);
    i := 0;
    while log[i].block != b
      invariant i <= k && forall j | 0 <= j < i :: log[j].block != b
      decreases k - i
    {
      i := i + 1;
    }
  }

  /** At most one block is certified in each view. */
  lemma OneCertifiedBlockPerView(d: Deployment, log: Log, a: Hash, b: Hash)
    requires d.Sizes() && Lawful(d, log) && Certified(d, log, a) && Certified(d, log, b)
    requires a.content.view == b.content.view
    ensures a == b
  {
    hide Lawful, Certified;
    var i, j := CommonVoter(d, log, a, log, b);
    OneVotePerView(d, log, i, j);
  }

  lemma OneVotePerView(d: Deployment, log: Log, i: nat, j: nat)
    requires Lawful(d, log) && i < |log| && j < |log| && log[i].node == log[j].node
    ensures log[i].block.Digest? && log[j].block.Digest?
    ensures log[i].block.content.view == log[j].block.content.view ==> log[i].block == log[j].block
  {
    hide Rule2, Rule3;
    assert Rule1(log, i) && Rule1(log, j);
  }

  /** The parent of a certified block is genesis or certified, and its view is smaller. No node
    ever compares a proposal's view with its parent's: the order emerges from rules 1 and 2. */
  lemma ParentCertifiedInSmallerView(d: Deployment, log: Log, b: Hash)
    requires d.Sizes() && Lawful(d, log) && Certified(d, log, b)
    ensures var p := b.content.parentHash;
            p != Genesis ==> Certified(d, log, p) && p.content.view < b.content.view
  {
    var p := b.content.parentHash;
    if p != Genesis {
      var first := FirstVote(d, log, b);
      assert Rule2(d, log, first);
      CertifiedMonotone(d, log[..first], log, p);
      // The common voter voted for p before anybody voted for b.
      var i, j := CommonVoter(d, log[..first], p, log, b);
      assert i < first <= j;
      assert Rule1(log, j);
    }
  }

  /** Every proper ancestor of a certified block except genesis is certified in a smaller view. */
  lemma {:induction false} AncestorsCertifiedInSmallerViews(d: Deployment, log: Log, b: Hash, a: Hash)
    requires d.Sizes() && Lawful(d, log) && Certified(d, log, b)
    requires Extends(b, a) && a != Genesis
    ensures Certified(d, log, a)
    ensures a != b ==> a.content.view < b.content.view
    decreases b
  {
    if a != b {
      ParentCertifiedInSmallerView(d, log, b);
      var p := b.content.parentHash;
      assert p != Genesis;
      AncestorsCertifiedInSmallerViews(d, log, p, a);
    }
  }

  /** Lock freezing: once b1 has a certified child b2, every block certified in a later view
    extends b1. */
  lemma LockFreezing(d: Deployment, log: Log, b1: Hash, b2: Hash, c: Hash)
    requires d.Sizes() && Lawful(d, log) && Certified(d, log, b2) && Certified(d, log, c)
    requires b2.content.parentHash == b1 && b1 != Genesis
    requires b2.content.view < c.content.view
    ensures c != b1 && Extends(c, b1)
  {
    var i, j := CommonVoter(d, log, b2, log, c);
    LaterVoteKeepsLock(d, log, i, j);
    DepthGrows(c.content.parentHash, b1);
  }

  /** What a node votes for in a later view has a parent extending the parent of its earlier vote. */
  lemma LaterVoteKeepsLock(d: Deployment, log: Log, i: nat, j: nat)
    requires Lawful(d, log) && i < |log| && j < |log| && log[i].node == log[j].node
    requires log[i].block.content.view < log[j].block.content.view
    ensures var locked := log[i].block.content.parentHash;
            locked != Genesis ==> Extends(log[j].block.content.parentHash, locked)
  {
    assert Rule1(log, i) && Rule3(log, j);
  }

  /** b can be committed: it heads three certified blocks, each the direct child of the previous. */
  predicate HeadsTriple(d: Deployment, log: Log, b: Hash, b1: Hash, b2: Hash) {
    && Certified(d, log, b) && Certified(d, log, b1) && Certified(d, log, b2)
    && b1.content.parentHash == b && b2.content.parentHash == b1
  }

  ghost predicate Final(d: Deployment, log: Log, b: Hash) {
    exists b1, b2 :: HeadsTriple(d, log, b, b1, b2)
  }

  lemma FinalMonotone(d: Deployment, log: Log, more: Log, b: Hash)
    requires log <= more && Final(d, log, b)
    ensures Final(d, more, b)
  {
    var b1, b2 :| HeadsTriple(d, log, b, b1, b2);
    CertifiedMonotone(d, log, more, b);
    CertifiedMonotone(d, log, more, b1);
    CertifiedMonotone(d, log, more, b2);
    assert HeadsTriple(d, more, b, b1, b2);
  }

  /** Final blocks never conflict. */
  lemma FinalBlocksAgree(d: Deployment, log: Log, a: Hash, b: Hash)
    requires d.Sizes() && Lawful(d, log) && Final(d, log, a) && Final(d, log, b)
    ensures SameChain(a, b)
  {
    var a1, a2 :| HeadsTriple(d, log, a, a1, a2);
    var b1, b2 :| HeadsTriple(d, log, b, b1, b2);
    if a2.content.view == b2.content.view {
      OneCertifiedBlockPerView(d, log, a2, b2);
    } else if a2.content.view < b2.content.view {
      LaterTipExtends(d, log, a, a1, a2, b2);
      AncestorsAreLinear(b2, a, b);
    } else {
      LaterTipExtends(d, log, b, b1, b2, a2);
      AncestorsAreLinear(a2, a, b);
    }
  }

  lemma LaterTipExtends(d: Deployment, log: Log, a: Hash, a1: Hash, a2: Hash, tip: Hash)
    requires d.Sizes() && Lawful(d, log) && HeadsTriple(d, log, a, a1, a2) && Certified(d, log, tip)
    requires a2.content.view < tip.content.view
    ensures Extends(tip, a)
  {
    LockFreezing(d, log, a1, a2, tip);
    assert Extends(a1, a);
    ExtendsTransitive(tip, a1, a);
  }

  /** Along one chain views order final blocks: the earlier one is the ancestor. */
  lemma FinalBlocksInViewOrder(d: Deployment, log: Log, a: Hash, b: Hash)
    requires d.Sizes() && Lawful(d, log) && Final(d, log, a) && Final(d, log, b)
    ensures a.content.view <= b.content.view <==> Extends(b, a)
  {
    FinalBlocksAgree(d, log, a, b);
    if Extends(b, a) {
      AncestorsCertifiedInSmallerViews(d, log, b, a);
    }
    if Extends(a, b) {
      AncestorsCertifiedInSmallerViews(d, log, a, b);
    }
  }
}
