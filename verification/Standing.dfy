/** Where a node of a failure-free run stands on the chain (phase5/vap-to.mjs): how much of it the node
  has stored, voted on, certified and committed, and how accepting a proposal, voting and collecting
  votes move it on. Every lemma here is about one node; Lockstep.dfy puts the nodes together, performs
  their calls in any order, and shows that they stay in step from one view to the next. */
module Standing {
  import opened Wrappers
  import opened Endorse
  import opened Blocks
  import opened NodeState
  import opened VoteLog
  import opened Protocol
  import Quorum

  // ------------------------------------------------------------------ transactions

  predicate FreshTxs(used: set<string>, txs: seq<Tx>) {
    && (forall i | 0 <= i < |txs| :: txs[i].Commit? && NonceKey(txs[i]) !in used)
    && (forall i, j | 0 <= i < j < |txs| :: NonceKey(txs[i]) != NonceKey(txs[j]))
  }

  lemma NoncesSplit(txs: seq<Tx>, tx: Tx)
    ensures Nonces(txs + [tx]) == Nonces(txs) + if tx.Commit? then {NonceKey(tx)} else {}
  {
    var all := txs + [tx];
    assert all[|txs|] == tx && forall i | 0 <= i < |txs| :: all[i] == txs[i];
  }

  lemma FreshSplit(used: set<string>, txs: seq<Tx>, tx: Tx)
    ensures FreshTxs(used, txs + [tx]) <==>
            FreshTxs(used, txs) && tx.Commit? && NonceKey(tx) !in used && NonceKey(tx) !in Nonces(txs)
  {
    var all := txs + [tx];
    assert all[|txs|] == tx && forall i | 0 <= i < |txs| :: all[i] == txs[i];
    if FreshTxs(used, all) {
      assert FreshTxs(used, txs) by {
        assert forall i, j | 0 <= i < j < |txs| :: NonceKey(all[i]) != NonceKey(all[j]);
      }
    }
  }

  lemma {:induction false} FreshInserted(used: set<string>, sorted: seq<Tx>, tx: Tx)
    requires FreshTxs(used, sorted + [tx]) && tx.Commit?
    ensures FreshTxs(used, InsertTx(sorted, tx)) && Nonces(InsertTx(sorted, tx)) == Nonces(sorted) + {NonceKey(tx)}
  {
    hide MayPrecede, FreshTxs, Nonces;
    FreshSplit(used, sorted, tx);
    NoncesSplit(sorted, tx);
    if sorted != [] && !MayPrecede(sorted[|sorted| - 1], tx) {
      var init, last := sorted[..|sorted| - 1], sorted[|sorted| - 1];
      assert sorted == init + [last];
      FreshSplit(used, init, last);
      NoncesSplit(init, last);
      FreshSplit(used, init, tx);
      FreshInserted(used, init, tx);
      FreshSplit(used, InsertTx(init, tx), last);
      NoncesSplit(InsertTx(init, tx), last);
    }
  }

  lemma {:induction false} FreshSorted(used: set<string>, txs: seq<Tx>)
    requires FreshTxs(used, txs)
    ensures FreshTxs(used, SortTxs(txs)) && Nonces(SortTxs(txs)) == Nonces(txs)
  {
    if txs != [] {
      var init, last := txs[..|txs| - 1], txs[|txs| - 1];
      assert txs == init + [last];
      FreshSplit(used, init, last);
      NoncesSplit(init, last);
      FreshSorted(used, init);
      FreshSplit(used, SortTxs(init), last);
      FreshInserted(used, SortTxs(init), last);
    }
  }

  /** The check of a proposal's transactions passes exactly if none was seen before or comes twice. */
  lemma {:induction false} PassesIff(used: set<string>, txs: seq<Tx>)
    ensures DoubleSpend(used, txs).None? <==> FreshTxs(used, txs)
  {
    if txs != [] {
      var init, last := txs[..|txs| - 1], txs[|txs| - 1];
      assert txs == init + [last];
      FreshSplit(used, init, last);
      PassesIff(used, init);
    }
  }

  /** Nonces used by the blocks of a chain. */
  function ChainNonces(chain: seq<Proposal>): set<string> {
    set i, j | 0 <= i < |chain| && 0 <= j < |chain[i].txs| && chain[i].txs[j].Commit? :: NonceKey(chain[i].txs[j])
  }

  lemma FreshAgainst(used: set<string>, txs: seq<Tx>)
    ensures FreshTxs(used, txs) <==> FreshTxs({}, txs) && Nonces(txs) !! used
  {
    if FreshTxs({}, txs) && Nonces(txs) !! used {
      forall i | 0 <= i < |txs| ensures NonceKey(txs[i]) !in used {
        assert NonceKey(txs[i]) in Nonces(txs);
      }
    }
  }

  // ------------------------------------------------------------------ the chain and a node on it

  function ParentAt(chain: seq<Proposal>, i: nat): Hash
    requires i < |chain|
  {
    if i == 0 then Genesis else chain[i - 1].blockHash
  }

  /** Block i is proposed in view i on top of block i-1. */
  predicate LinkAt(chain: seq<Proposal>, i: nat)
    requires i < |chain|
  {
    chain[i].view == i && chain[i].blockHash == HashBlock(chain[i]) && chain[i].parentHash == ParentAt(chain, i)
  }

  predicate Linked(chain: seq<Proposal>) {
    forall i | 0 <= i < |chain| :: LinkAt(chain, i)
  }

  /** Hashes of the first k blocks. */
  function Prefix(chain: seq<Proposal>, k: nat): set<Hash>
    requires k <= |chain|
  {
    set i | 0 <= i < k :: chain[i].blockHash
  }

  lemma PrefixGrows(chain: seq<Proposal>, k: nat)
    requires k < |chain|
    ensures Prefix(chain, k + 1) == Prefix(chain, k) + {chain[k].blockHash}
  {
  }

  lemma NotInPrefix(chain: seq<Proposal>, k: nat)
    requires Linked(chain) && k < |chain|
    ensures chain[k].blockHash !in Prefix(chain, k)
  {
    forall i | 0 <= i < k ensures chain[i].blockHash != chain[k].blockHash {
      HashesDiffer(chain, i, k);
    }
  }

  function Settled(k: nat): nat {
    if k < 2 then 0 else k - 2
  }

  predicate StoredUpTo(blocks: map<Hash, Proposal>, chain: seq<Proposal>, k: nat)
    requires k <= |chain|
  {
    && blocks.Keys == Prefix(chain, k)
    && (forall i | 0 <= i < k :: StoredAt(blocks, chain, i))
  }

  predicate VotedUpTo(s: State, chain: seq<Proposal>, k: nat)
    requires k <= |chain|
  {
    && s.view <= k
    && (forall v | v in s.votedViews :: 0 <= v < k)
    && (if k < 2 then s.lock.None? else s.lock.Some? && s.lock.value.blockHash == chain[k - 2].blockHash)
  }

  predicate IndexedAt(index: map<Hash, Hash>, chain: seq<Proposal>, i: nat)
    requires i < |chain|
  {
    ParentAt(chain, i) in index && index[ParentAt(chain, i)] == chain[i].blockHash
  }

  predicate StoredAt(blocks: map<Hash, Proposal>, chain: seq<Proposal>, i: nat)
    requires i < |chain|
  {
    chain[i].blockHash in blocks && blocks[chain[i].blockHash] == chain[i]
  }

  /** A certificate of block k-1; before the first block there is none. */
  predicate TopQC(qc: Option<QC>, chain: seq<Proposal>, k: nat)
    requires k <= |chain|
  {
    if k == 0 then qc.None?
    else qc.Some? && !qc.value.restored && qc.value.blockHash == chain[k - 1].blockHash && qc.value.view == k - 1
  }

  predicate CertifiedUpTo(s: State, chain: seq<Proposal>, k: nat)
    requires k <= |chain|
  {
    && TopQC(s.highestQC, chain, k)
    && s.qcByBlockHash.Keys == Prefix(chain, k)
  }

  predicate Below(took: set<nat>, k: nat) {
    forall i | i in took :: i < k
  }

  /** The index names exactly the blocks in these places. */
  predicate IndexedBy(index: map<Hash, Hash>, chain: seq<Proposal>, took: set<nat>)
    requires Below(took, |chain|)
  {
    && (forall h | h in index :: exists i :: i in took && ParentAt(chain, i) == h)
    && (forall i | i in took :: IndexedAt(index, chain, i))
  }

  predicate CommittedAre(s: State, bs: seq<Proposal>) {
    && s.committed == bs
    && s.committedHashes == Prefix(bs, |bs|)
    && s.lastCommittedHash == (if bs == [] then Genesis else bs[|bs| - 1].blockHash)
    && s.seenNonces == ChainNonces(bs)
  }

  /** A node that collected the votes for the blocks in these places has what it takes to commit block i. */
  predicate Ripe(took: set<nat>, i: nat) {
    i + 1 in took && i + 2 in took
  }

  /** Of the first k blocks those it can commit. */
  function Picks(chain: seq<Proposal>, took: set<nat>, k: nat): seq<Proposal>
    requires k <= |chain|
  {
    if k == 0 then []
    else Picks(chain, took, k - 1) + if Ripe(took, k - 1) then [chain[k - 1]] else []
  }

  /** The mempool holds transactions with distinct nonces. */
  predicate PoolKept(s: State) {
    s.pendingNonces == Nonces(s.pendingTxs) && FreshTxs({}, s.pendingTxs)
  }

  /** Where a node stands: how much of the chain it has stored, voted on and certified. */
  predicate Stands(s: State, chain: seq<Proposal>, stored: nat, voted: nat, certified: nat) {
    && stored <= |chain| && voted <= |chain| && certified <= |chain|
    && StoredUpTo(s.blocks, chain, stored) && VotedUpTo(s, chain, voted) && CertifiedUpTo(s, chain, certified)
    && s.expelled == {}
  }

  function FullRoster(d: Deployment): Roster {
    map id | id in d.keys :: Some(d.keys[id])
  }

  function QCTarget(qc: QC): Message {
    VoteMessage(VoteTarget(qc.view, qc.blockHash, qc.parentHash))
  }

  /** The certificate holds a quorum of signatures of members. */
  ghost predicate Verified(d: Deployment, qc: Option<QC>) {
    qc.Some? ==> |ValidSigners(QCTarget(qc.value), qc.value.sigs, FullRoster(d))| >= Quorum.Threshold(d.n, d.f)
  }

  lemma VerifiedEverywhere(d: Deployment, h: NodeId, s: State, qc: QC)
    requires s.expelled == {}
    ensures ActiveRoster(ParamsOf(d, h), s) == FullRoster(d)
    ensures QCVerifies(ParamsOf(d, h), s, qc) <==> Verified(d, Some(qc))
  {
    assert ActiveRoster(ParamsOf(d, h), s) == FullRoster(d);
  }

  lemma HashesDiffer(chain: seq<Proposal>, i: nat, j: nat)
    requires Linked(chain) && i < |chain| && j < |chain|
    ensures chain[i].blockHash == chain[j].blockHash <==> i == j
    ensures chain[i].blockHash.Digest? && chain[i].blockHash.content.view == i
    ensures chain[i].blockHash.content.parentHash == chain[i].parentHash == ParentAt(chain, i)
  {
    assert LinkAt(chain, i) && LinkAt(chain, j);
  }

  lemma ParentsDiffer(chain: seq<Proposal>, i: nat, j: nat)
    requires Linked(chain) && i < j < |chain|
    ensures ParentAt(chain, i) != ParentAt(chain, j)
  {
    HashesDiffer(chain, j - 1, j - 1);
    if i > 0 {
      HashesDiffer(chain, i - 1, j - 1);
    }
  }

  // ------------------------------------------------------------------ voting

  /** What the leader of the next view proposes on top of the chain. */
  ghost predicate NextProposal(d: Deployment, chain: seq<Proposal>, b: Proposal) {
    && Linked(chain + [b]) && TopQC(b.justify, chain + [b], |chain|) && Verified(d, b.justify)
    && d.n > 0 && |d.roster| == d.n && b.leader == d.roster[|chain| % d.n] && b.leader in d.keys
    && b.sig == SignedBy(d.keys[b.leader], ProposalMessage(ContentOf(b)))
  }

  /** A node that stands on the chain, and holds a certificate of its last block or of the one before,
    votes for the proposal exactly if none of its transactions has been committed or comes twice. */
  lemma NextIsAcceptedIff(d: Deployment, h: NodeId, s: State, chain: seq<Proposal>, b: Proposal, stored: nat,
                          certified: nat)
    requires ParamsOf(d, h).Valid() && NextProposal(d, chain, b)
    requires |chain| <= stored <= |chain| + 1 && certified <= |chain| <= certified + 1
    requires Stands(s, chain + [b], stored, |chain|, certified)
    requires s.lastCommittedHash == Genesis || chain != []
    ensures Admission(ParamsOf(d, h), s, b).None?
    ensures Extension(AdoptJustify(s, b), b).None? <==> FreshTxs(s.seenNonces, b.txs)
  {
    NextIsAdmitted(d, h, s, chain, b);
    NextExtends(d, s, chain, b, stored, certified);
  }

  lemma NextIsAdmitted(d: Deployment, h: NodeId, s: State, chain: seq<Proposal>, b: Proposal)
    requires ParamsOf(d, h).Valid() && NextProposal(d, chain, b)
    requires |chain| <= |chain + [b]| && VotedUpTo(s, chain + [b], |chain|) && s.expelled == {}
    ensures Admission(ParamsOf(d, h), s, b).None?
  {
    hide ValidSigners;
    var all, v := chain + [b], |chain|;
    assert all[v] == b && LinkAt(all, v);
    if b.justify.Some? {
      VerifiedEverywhere(d, h, s, b.justify.value);
      assert all[v - 1] == chain[v - 1];
    }
  }

  lemma NextExtends(d: Deployment, s: State, chain: seq<Proposal>, b: Proposal, stored: nat, certified: nat)
    requires NextProposal(d, chain, b)
    requires |chain| <= stored <= |chain| + 1 && certified <= |chain| <= certified + 1
    requires Stands(s, chain + [b], stored, |chain|, certified)
    requires s.lastCommittedHash == Genesis || chain != []
    ensures Extension(AdoptJustify(s, b), b).None? <==> FreshTxs(s.seenNonces, b.txs)
  {
    hide FreshTxs, Verified, DoubleSpend, IsDescendant, StoredUpTo;
    var all, v := chain + [b], |chain|;
    assert all[v] == b && LinkAt(all, v);
    PassesIff(s.seenNonces, b.txs);
    AdoptMovesOn(s, all, certified, v, b);
    AdoptFrame(s, b);
    var s1 := AdoptJustify(s, b);
    if v > 0 {
      ParentExtends(s1, all, stored);
      assert s1.highestQC.value.blockHash == b.parentHash;
      assert b.parentHash in s1.qcByBlockHash;
      assert IsDescendant(s1.blocks, b.parentHash, b.parentHash) by {
        SelfDescendant(s1.blocks, b.parentHash);
      }
    }
  }

  lemma SelfDescendant(blocks: map<Hash, Proposal>, h: Hash)
    ensures IsDescendant(blocks, h, h)
  {
  }

  /** The parent of the next block extends the lock. */
  lemma ParentExtends(s: State, chain: seq<Proposal>, stored: nat)
    requires Linked(chain) && |chain| >= 2 && |chain| - 1 <= stored
    requires Stands(s, chain, stored, |chain| - 1, |chain| - 1)
    ensures chain[|chain| - 1].parentHash == chain[|chain| - 2].blockHash
    ensures chain[|chain| - 2].blockHash in s.qcByBlockHash
    ensures s.lock.Some? ==> IsDescendant(s.blocks, chain[|chain| - 1].parentHash, s.lock.value.blockHash)
  {
    var v := |chain| - 1;
    var parent := chain[v].parentHash;
    assert LinkAt(chain, v) && parent == chain[v - 1].blockHash;
    HashesDiffer(chain, v - 1, v - 1);
    assert StoredAt(s.blocks, chain, v - 1);
    assert chain[v - 1].blockHash in Prefix(chain, v);
    if v > 1 {
      var a := chain[v - 2].blockHash;
      HashesDiffer(chain, v - 2, v - 2);
      assert StoredAt(s.blocks, chain, v - 2) && LinkAt(chain, v - 2);
      assert s.blocks[a] == chain[v - 2] && s.blocks[parent] == chain[v - 1];
      assert Walks(s.blocks, a, a, Some(v - 2), Some(v - 1));
      assert Walks(s.blocks, parent, a, Some(v - 2), None);
    }
  }

  /** A proposal carries the certificate of its parent to a node that missed it. */
  lemma AdoptMovesOn(s: State, chain: seq<Proposal>, c: nat, k: nat, b: Proposal)
    requires Linked(chain) && c <= k <= c + 1 && k <= |chain| && CertifiedUpTo(s, chain, c)
    requires TopQC(b.justify, chain, k)
    ensures CertifiedUpTo(AdoptJustify(s, b), chain, k) && AdoptJustify(s, b).highestQC == b.justify
  {
    if k > 0 {
      PrefixGrows(chain, k - 1);
    }
  }

  lemma AdoptFrame(s: State, b: Proposal)
    ensures var t := AdoptJustify(s, b);
            && t.view == s.view && t.votedViews == s.votedViews && t.lock == s.lock && t.blocks == s.blocks
            && t.blockOrder == s.blockOrder && t.childIndex == s.childIndex && t.expelled == s.expelled
            && t.seenNonces == s.seenNonces && t.lastCommittedHash == s.lastCommittedHash
  {
  }

  lemma VoteMovesOn(d: Deployment, s: State, chain: seq<Proposal>, b: Proposal, stored: nat, certified: nat)
    requires NextProposal(d, chain, b)
    requires |chain| <= stored <= |chain| + 1 && certified <= |chain| <= certified + 1
    requires Stands(s, chain + [b], stored, |chain|, certified)
    ensures |chain + [b]| == |chain| + 1
    ensures var s' := CastVote(AdoptJustify(s, b), b);
            && Stands(s', chain + [b], |chain| + 1, |chain| + 1, |chain|)
            && s'.highestQC == b.justify && s'.childIndex == s.childIndex
  {
    hide Verified;
    var all, v := chain + [b], |chain|;
    assert all[v] == b;
    AdoptMovesOn(s, all, certified, v, b);
    AdoptFrame(s, b);
    var s1 := AdoptJustify(s, b);
    StoreMovesOn(s1, all, v, stored);
    VoteCounts(s1, all, b);
    CastVoteFrame(s1, b);
  }

  lemma CastVoteFrame(s: State, b: Proposal)
    ensures var s2 := CastVote(s, b);
            && s2.highestQC == s.highestQC && s2.qcByBlockHash == s.qcByBlockHash && s2.childIndex == s.childIndex
            && s2.blocks == StoreBlock(s, b).blocks && s2.blockOrder == StoreBlock(s, b).blockOrder
            && s2.expelled == s.expelled
  {
  }

  lemma VoteCounts(s: State, chain: seq<Proposal>, b: Proposal)
    requires Linked(chain) && chain != [] && b == chain[|chain| - 1] && VotedUpTo(s, chain, |chain| - 1)
    ensures VotedUpTo(CastVote(s, b), chain, |chain|)
  {
    var k := |chain|;
    assert LinkAt(chain, k - 1);
    if k > 1 {
      HashesDiffer(chain, k - 2, k - 2);
    }
  }

  /** Storing block v (again, at its leader) leaves exactly blocks 0 to v stored. */
  lemma StoreMovesOn(s: State, chain: seq<Proposal>, v: nat, stored: nat)
    requires Linked(chain) && v < |chain| && v <= stored <= v + 1 && StoredUpTo(s.blocks, chain, stored)
    ensures StoredUpTo(StoreBlock(s, chain[v]).blocks, chain, v + 1)
  {
    PrefixGrows(chain, v);
    NotInPrefix(chain, v);
    forall i | 0 <= i <= v
      ensures StoredAt(StoreBlock(s, chain[v]).blocks, chain, i)
    {
      if i < v {
        assert StoredAt(s.blocks, chain, i);
        HashesDiffer(chain, i, v);
      }
    }
  }

  // ------------------------------------------------------------------ collecting

  function VoteFor(b: Proposal): Message {
    VoteMessage(VoteTarget(b.view, b.blockHash, b.parentHash))
  }

  /** A list of votes, with whatever else it holds, that contains a quorum for b. */
  ghost predicate HoldsQuorum(d: Deployment, b: Proposal, votes: seq<Endorsement<Message>>) {
    |ValidSigners(VoteFor(b), votes, FullRoster(d))| >= Quorum.Threshold(d.n, d.f)
  }

  /** A member's vote for b as it is sent. */
  function VoteOf(d: Deployment, h: NodeId, b: Proposal): Endorsement<Message> {
    if h in d.keys then Endorsement(h, SignedBy(d.keys[h], VoteFor(b))) else Malformed
  }

  /** A list of votes, in any order and with whatever else it holds, that lacks no honest vote for b. */
  predicate HoldsAllVotes(d: Deployment, log: Log, b: Proposal, votes: seq<Endorsement<Message>>) {
    forall h | h in d.honest && Vote(h, b.blockHash) in log :: VoteOf(d, h, b) in votes
  }

  /** The honest members alone make a quorum. */
  predicate EnoughHonest(d: Deployment) {
    |d.honest| >= Quorum.Threshold(d.n, d.f)
  }

  predicate AllVotedFor(d: Deployment, log: Log, b: Hash) {
    forall h | h in d.honest :: Vote(h, b) in log
  }

  lemma VotesSuffice(d: Deployment, who: set<NodeId>, b: Proposal, votes: seq<Endorsement<Message>>)
    requires |who| >= Quorum.Threshold(d.n, d.f) && forall h | h in who :: h in d.keys && VoteOf(d, h, b) in votes
    ensures HoldsQuorum(d, b, votes)
  {
    var signers := ValidSigners(VoteFor(b), votes, FullRoster(d));
    forall h | h in who ensures h in signers {
      var i :| 0 <= i < |votes| && votes[i] == VoteOf(d, h, b);
      assert Valid(VoteFor(b), FullRoster(d), votes[i]) && votes[i].nodeId == h;
    }
    Quorum.SubsetCardinality(who, signers);
  }

  lemma AllVotesSuffice(d: Deployment, log: Log, b: Proposal, votes: seq<Endorsement<Message>>)
    requires d.Valid() && EnoughHonest(d) && AllVotedFor(d, log, b.blockHash) && HoldsAllVotes(d, log, b, votes)
    ensures HoldsQuorum(d, b, votes)
  {
    hide VoteOf, HoldsQuorum;
    VotesSuffice(d, d.honest, b, votes);
  }

  function QCFrom(d: Deployment, b: Proposal, votes: seq<Endorsement<Message>>): QC {
    QC(b.view, b.blockHash, b.parentHash, Kept(VoteFor(b), votes, FullRoster(d)), false)
  }

  lemma QuorumCertifies(d: Deployment, b: Proposal, votes: seq<Endorsement<Message>>)
    requires HoldsQuorum(d, b, votes)
    ensures Verified(d, Some(QCFrom(d, b, votes)))
  {
    KeptIsValidSigners(VoteFor(b), votes, FullRoster(d));
    AllValidSigners(VoteFor(b), Kept(VoteFor(b), votes, FullRoster(d)), FullRoster(d));
  }

  lemma CollectMovesOn(d: Deployment, h: NodeId, s: State, chain: seq<Proposal>, took: set<nat>,
                       votes: seq<Endorsement<Message>>)
    requires Linked(chain) && chain != [] && HoldsQuorum(d, chain[|chain| - 1], votes)
    requires Stands(s, chain, |chain|, |chain|, |chain| - 1) && Below(took, |chain| - 1)
    requires IndexedBy(s.childIndex, chain, took)
    requires s.activeProposal == Some(chain[|chain| - 1])
    ensures var s' := Collected(ParamsOf(d, h), s, votes);
            && Stands(s', chain, |chain|, |chain|, |chain|) && IndexedBy(s'.childIndex, chain, took + {|chain| - 1})
            && s'.highestQC == Some(QCFrom(d, chain[|chain| - 1], votes))
  {
    hide ValidSigners, Kept, IndexedBy;
    var p, v := ParamsOf(d, h), |chain| - 1;
    var b := chain[v];
    VerifiedEverywhere(d, h, s, QCFrom(d, b, votes));
    var qc := CollectedQC(p, s, votes);
    assert qc == Some(QCFrom(d, b, votes));
    assert LinkAt(chain, v) && StoredAt(s.blocks, chain, v);
    var s' := Collected(p, s, votes);
    assert s' == Adopt(s, qc.value).(childIndex := s.childIndex[b.parentHash := b.blockHash]);
    PrefixGrows(chain, v);
    IndexMovesOn(s.childIndex, chain, took);
  }

  lemma IndexMovesOn(index: map<Hash, Hash>, chain: seq<Proposal>, took: set<nat>)
    requires Linked(chain) && chain != [] && Below(took, |chain| - 1) && IndexedBy(index, chain, took)
    ensures IndexedBy(index[ParentAt(chain, |chain| - 1) := chain[|chain| - 1].blockHash], chain, took + {|chain| - 1})
  {
    var v: nat := |chain| - 1;
    var index' := index[ParentAt(chain, v) := chain[v].blockHash];
    forall i | i in took + {v} ensures IndexedAt(index', chain, i) {
      if i != v {
        assert IndexedAt(index, chain, i);
        ParentsDiffer(chain, i, v);
      }
    }
    forall h | h in index' ensures exists i :: i in took + {v} && ParentAt(chain, i) == h {
      if h in index {
        var i :| i in took && ParentAt(chain, i) == h;
        assert i in took + {v};
      } else {
        assert v in took + {v};
      }
    }
  }

  // ------------------------------------------------------------------ what is committed

  /** Collecting the votes for one block more changes nothing about earlier blocks. */
  lemma {:induction false} PicksStay(chain: seq<Proposal>, took: set<nat>, v: nat, k: nat)
    requires k <= |chain| && (k == 0 || k + 2 <= v)
    ensures Picks(chain, took + {v}, k) == Picks(chain, took, k)
  {
    if k > 0 {
      PicksStay(chain, took, v, k - 1);
    }
  }

  lemma {:induction false} PicksLonger(chain: seq<Proposal>, b: Proposal, took: set<nat>, k: nat)
    requires k <= |chain|
    ensures Picks(chain + [b], took, k) == Picks(chain, took, k)
  {
    if k > 0 {
      PicksLonger(chain, b, took, k - 1);
    }
  }

  /** Whoever collects the votes for every block can commit every block but the last two. */
  lemma {:induction false} AllPicked(chain: seq<Proposal>, took: set<nat>, k: nat)
    requires k + 2 <= |chain| && forall i | 0 <= i < |chain| :: i in took
    ensures Picks(chain, took, k) == chain[..k]
  {
    if k > 0 {
      AllPicked(chain, took, k - 1);
      assert chain[..k] == chain[..k - 1] + [chain[k - 1]];
    }
  }

  /** And whoever collects none, commits none. */
  lemma {:induction false} NonePicked(chain: seq<Proposal>, k: nat)
    requires k <= |chain|
    ensures Picks(chain, {}, k) == []
  {
    if k > 0 {
      NonePicked(chain, k - 1);
    }
  }

  lemma {:induction false} PicksIn(chain: seq<Proposal>, took: set<nat>, k: nat)
    requires k <= |chain|
    ensures ChainNonces(Picks(chain, took, k)) <= ChainNonces(chain)
    ensures forall b | b in Picks(chain, took, k) :: b in chain
  {
    if k > 0 {
      PicksIn(chain, took, k - 1);
      if Ripe(took, k - 1) {
        PushedNonces(Picks(chain, took, k - 1), chain[k - 1]);
        BlockNonces(chain, k - 1);
      }
    }
  }

  lemma PushedNonces(bs: seq<Proposal>, b: Proposal)
    ensures ChainNonces(bs + [b]) == ChainNonces(bs) + Nonces(b.txs)
  {
    var all := bs + [b];
    assert all[|bs|] == b && forall i | 0 <= i < |bs| :: all[i] == bs[i];
  }

  lemma BlockNonces(chain: seq<Proposal>, i: nat)
    requires i < |chain|
    ensures Nonces(chain[i].txs) <= ChainNonces(chain)
  {
  }

  /** The hash of a block is among those committed exactly if the block was ripe. */
  lemma {:induction false} PickedIff(chain: seq<Proposal>, took: set<nat>, k: nat, i: nat)
    requires Linked(chain) && k <= |chain| && i < |chain|
    ensures var bs := Picks(chain, took, k); chain[i].blockHash in Prefix(bs, |bs|) <==> i < k && Ripe(took, i)
  {
    var bs := Picks(chain, took, k);
    if k > 0 {
      var before := Picks(chain, took, k - 1);
      PickedIff(chain, took, k - 1, i);
      HashesDiffer(chain, i, k - 1);
      PushedHashes(before, chain[k - 1]);
      assert bs == if Ripe(took, k - 1) then before + [chain[k - 1]] else before;
    }
  }

  lemma PushedHashes(bs: seq<Proposal>, b: Proposal)
    ensures Prefix(bs + [b], |bs| + 1) == Prefix(bs, |bs|) + {b.blockHash}
  {
    var all := bs + [b];
    assert all[|bs|] == b && forall i | 0 <= i < |bs| :: all[i] == bs[i];
  }
}
