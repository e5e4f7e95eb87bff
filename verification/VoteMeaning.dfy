/** What a vote stands for (phase5/vap-to.mjs: safetyRule, vote), told without the functions that decide it. */
module VoteMeaning {
  import opened Wrappers
  import opened Endorse
  import opened Blocks
  import opened NodeState
  import opened VoteLog
  import opened Protocol
  import Quorum

  // ------------------------------------------------------------------ one call

  /** Members not expelled whose genuine signature over the certificate's numbers it carries. */
  predicate Signs(p: Params, expelled: set<NodeId>, qc: QC, e: Endorsement<Message>) {
    && e.Endorsement? && e.nodeId in p.keys && e.nodeId !in expelled
    && e.sig == SignedBy(p.keys[e.nodeId], VoteMessage(VoteTarget(qc.view, qc.blockHash, qc.parentHash)))
  }

  function SignersOf(p: Params, expelled: set<NodeId>, qc: QC): set<NodeId> {
    set i | 0 <= i < |qc.sigs| && Signs(p, expelled, qc, qc.sigs[i]) :: qc.sigs[i].nodeId
  }

  /** They are more than twice the faults and at least two thirds of all. */
  predicate SignedByQuorum(p: Params, expelled: set<NodeId>, qc: QC) {
    var signers := |SignersOf(p, expelled, qc)|;
    signers >= 2 * p.f + 1 && 3 * signers >= 2 * p.n
  }

  /** Proposed by the leader of its view, who is not expelled and signed this very content. */
  predicate ProposedInTurn(p: Params, expelled: set<NodeId>, b: Proposal) {
    var content := Content(b.view, b.leader, b.parentHash, b.txs);
    && b.view >= 0 && p.n > 0 && |p.roster| == p.n && b.leader == p.roster[b.view % p.n] && b.leader !in expelled
    && b.leader in p.keys && b.sig == SignedBy(p.keys[b.leader], ProposalMessage(content))
    && b.blockHash == Digest(content)
  }

  /** Only commit transactions, no key twice, none committed before. */
  predicate Fresh(seen: set<string>, txs: seq<Tx>) {
    && (forall i | 0 <= i < |txs| :: txs[i].Commit? && txs[i].from + ":" + txs[i].nonce !in seen)
    && (forall i, j | 0 <= i < j < |txs| && txs[i].Commit? && txs[j].Commit? ::
          txs[i].from + ":" + txs[i].nonce != txs[j].from + ":" + txs[j].nonce)
  }

  /** The certificate the proposal carries belongs to its parent and is signed by a quorum. */
  predicate GoodJustify(p: Params, expelled: set<NodeId>, b: Proposal) {
    b.justify.Some? ==> b.justify.value.blockHash == b.parentHash && SignedByQuorum(p, expelled, b.justify.value)
  }

  /** The carried certificate counts if the node holds none that is higher. */
  predicate Counts(s: State, qc: QC) {
    s.highestQC.Some? ==> s.highestQC.value.view <= qc.view
  }

  /** The highest certificate with the carried one taken into account. */
  function Highest(s: State, b: Proposal): Option<QC> {
    if b.justify.Some? && Counts(s, b.justify.value) then b.justify else s.highestQC
  }

  /** The parent extends the highest certified block, or the last committed one. */
  predicate ExtendsHighest(s: State, b: Proposal) {
    match Highest(s, b)
    case Some(qc) => IsDescendant(s.blocks, b.parentHash, qc.blockHash)
    case None =>
      if s.lastCommittedHash == Genesis then b.parentHash == Genesis
      else IsDescendant(s.blocks, b.parentHash, s.lastCommittedHash)
  }

  /** The parent is certified, extends that block, and extends what the node is locked on. */
  predicate GoodParent(s: State, b: Proposal) {
    && ExtendsHighest(s, b)
    && (b.parentHash == Genesis || b.parentHash in s.qcByBlockHash || (b.justify.Some? && Counts(s, b.justify.value)))
    && (s.lock.Some? ==> IsDescendant(s.blocks, b.parentHash, s.lock.value.blockHash))
  }

  predicate Votable(p: Params, s: State, b: Proposal) {
    && ProposedInTurn(p, s.expelled, b) && b.view >= s.view && b.view !in s.votedViews
    && GoodJustify(p, s.expelled, b) && GoodParent(s, b) && Fresh(s.seenNonces, b.txs)
  }

  lemma ThresholdIs(p: Params, k: nat)
    ensures k >= p.Threshold() <==> k >= 2 * p.f + 1 && 3 * k >= 2 * p.n
  {
  }

  lemma QCVerifiesIff(p: Params, s: State, qc: QC)
    ensures QCVerifies(p, s, qc) <==> SignedByQuorum(p, s.expelled, qc)
  {
    var message := VoteMessage(VoteTarget(qc.view, qc.blockHash, qc.parentHash));
    assert ValidSigners(message, qc.sigs, ActiveRoster(p, s)) == SignersOf(p, s.expelled, qc) by {
      forall e ensures Valid(message, ActiveRoster(p, s), e) <==> Signs(p, s.expelled, qc, e) {
      }
    }
    ThresholdIs(p, |SignersOf(p, s.expelled, qc)|);
  }

  lemma NonceIn(init: seq<Tx>, key: string)
    ensures key in Nonces(init) <==> exists i ::
          0 <= i < |init| && init[i].Commit? && init[i].from + ":" + init[i].nonce == key
  {
    if i :| 0 <= i < |init| && init[i].Commit? && init[i].from + ":" + init[i].nonce == key {
      assert NonceKey(init[i]) == key;
    }
  }

  lemma {:induction false} DoubleSpendIff(seen: set<string>, txs: seq<Tx>)
    ensures DoubleSpend(seen, txs).None? <==> Fresh(seen, txs)
  {
    if txs != [] {
      var init, tx := txs[..|txs| - 1], txs[|txs| - 1];
      DoubleSpendIff(seen, init);
      if tx.Commit? {
        NonceIn(init, NonceKey(tx));
        FreshPush(seen, init, tx);
      }
      assert txs == init + [tx];
    }
  }

  lemma FreshPush(seen: set<string>, init: seq<Tx>, tx: Tx)
    requires tx.Commit?
    ensures Fresh(seen, init + [tx]) <==>
            && Fresh(seen, init) && tx.from + ":" + tx.nonce !in seen
            && forall i | 0 <= i < |init| && init[i].Commit? :: init[i].from + ":" + init[i].nonce != tx.from + ":" + tx.nonce
  {
    var txs, n := init + [tx], |init|;
    assert txs[n] == tx && forall i | 0 <= i < n :: txs[i] == init[i];
    if Fresh(seen, txs) {
      forall i | 0 <= i < n && init[i].Commit? ensures init[i].from + ":" + init[i].nonce != tx.from + ":" + tx.nonce {
        assert txs[i].from + ":" + txs[i].nonce != txs[n].from + ":" + txs[n].nonce;
      }
      forall i | 0 <= i < n ensures init[i].Commit? && init[i].from + ":" + init[i].nonce !in seen {
        assert txs[i].Commit?;
      }
    }
  }

  lemma AdmissionIff(p: Params, s: State, b: Proposal)
    requires p.Valid()
    ensures Admission(p, s, b).None? <==>
            && ProposedInTurn(p, s.expelled, b) && b.view >= s.view && b.view !in s.votedViews
            && GoodJustify(p, s.expelled, b)
  {
    hide QCVerifies, SignedByQuorum;
    if b.justify.Some? {
      QCVerifiesIff(p, s, b.justify.value);
    }
  }

  lemma ExtensionIff(s: State, b: Proposal)
    requires b.justify.Some? ==> b.justify.value.blockHash == b.parentHash
    ensures Extension(AdoptJustify(s, b), b).None? <==> GoodParent(s, b) && Fresh(s.seenNonces, b.txs)
  {
    hide IsDescendant, DoubleSpend, Fresh;
    DoubleSpendIff(s.seenNonces, b.txs);
  }

  /** A node votes for exactly the proposals made in turn by a leader not expelled, in a view it has not
    left and not voted in, on a certified parent that extends its lock and the highest certificate it knows
    of, with fresh commit transactions only. */
  lemma VotesIff(p: Params, s: State, b: Proposal)
    requires p.Valid()
    ensures Voted(p, s, b).1.None? <==> Votable(p, s, b)
  {
    hide Admission, Extension, AdoptJustify, CastVote, ProposedInTurn, GoodJustify, GoodParent, Fresh;
    VotedCases(p, s, b);
    AdmissionIff(p, s, b);
    if Admission(p, s, b).None? {
      JustifyMatches(p, s, b);
      ExtensionIff(s, b);
    }
  }

  lemma SafetyIff(p: Params, s: State, b: Proposal)
    requires p.Valid()
    ensures SafetyRule(p, s, b).1.None? <==> Votable(p, s, b)
  {
    hide Votable, CastVote;
    VotesIff(p, s, b);
  }

  lemma JustifyMatches(p: Params, s: State, b: Proposal)
    requires GoodJustify(p, s.expelled, b)
    ensures b.justify.Some? ==> b.justify.value.blockHash == b.parentHash
  {
  }

  // ------------------------------------------------------------------ why a proposal is refused

  /** The reason is true of the proposal. */
  predicate TrueOf(p: Params, s: State, b: Proposal, r: Refusal)
    requires p.Valid()
  {
    var content := Content(b.view, b.leader, b.parentHash, b.txs);
    match r
    case InvalidView => b.view < 0
    case LeaderMismatch => b.view >= 0 && b.leader != p.roster[b.view % p.n]
    case LeaderExpelled => b.leader in s.expelled
    case BadLeaderSignature => b.leader in p.keys ==> b.sig != SignedBy(p.keys[b.leader], ProposalMessage(content))
    case HashMismatch => b.blockHash != Digest(content)
    case StaleView => b.view < s.view
    case AlreadyVoted => b.view in s.votedViews
    case JustifyMismatch => b.justify.Some? && b.justify.value.blockHash != b.parentHash
    case BadJustify => b.justify.Some? && !SignedByQuorum(p, s.expelled, b.justify.value)
    case NotExtendingHighest => !ExtendsHighest(s, b)
    case ParentNotCertified => b.parentHash != Genesis && b.parentHash !in s.qcByBlockHash
    case NotExtendingLock => s.lock.Some? && !IsDescendant(s.blocks, b.parentHash, s.lock.value.blockHash)
    case _ => SpendsBadly(s.seenNonces, b.txs, r)
  }

  predicate SpendsBadly(seen: set<string>, txs: seq<Tx>, r: Refusal) {
    match r
    case BadTx => exists i :: 0 <= i < |txs| && !txs[i].Commit?
    case AlreadyCommitted => exists i :: 0 <= i < |txs| && txs[i].Commit? && txs[i].from + ":" + txs[i].nonce in seen
    case DuplicateNonce =>
      exists i, j ::
        && 0 <= i < j < |txs| && txs[i].Commit? && txs[j].Commit?
        && txs[i].from + ":" + txs[i].nonce == txs[j].from + ":" + txs[j].nonce
    case _ => false
  }

  lemma SpendsBadlyMore(seen: set<string>, init: seq<Tx>, tx: Tx, r: Refusal)
    requires SpendsBadly(seen, init, r)
    ensures SpendsBadly(seen, init + [tx], r)
  {
    var txs := init + [tx];
    assert forall i | 0 <= i < |init| :: txs[i] == init[i];
    match r
    case BadTx =>
      var i :| 0 <= i < |init| && !init[i].Commit?;
      assert !txs[i].Commit?;
    case AlreadyCommitted =>
      var i :| 0 <= i < |init| && init[i].Commit? && init[i].from + ":" + init[i].nonce in seen;
      assert txs[i].Commit?;
    case DuplicateNonce =>
      var i, j :| 0 <= i < j < |init| && init[i].Commit? && init[j].Commit?
        && init[i].from + ":" + init[i].nonce == init[j].from + ":" + init[j].nonce;
      assert txs[i].Commit? && txs[j].Commit?;
  }

  lemma {:induction false} DoubleSpendIsTrue(seen: set<string>, txs: seq<Tx>)
    ensures DoubleSpend(seen, txs).Some? ==> SpendsBadly(seen, txs, DoubleSpend(seen, txs).value)
  {
    if txs != [] {
      hide SpendsBadly;
      var n := |txs| - 1;
      var init, tx := txs[..n], txs[n];
      assert txs == init + [tx];
      DoubleSpendIsTrue(seen, init);
      if DoubleSpend(seen, init).Some? {
        SpendsBadlyMore(seen, init, tx, DoubleSpend(seen, init).value);
      } else {
        LastSpendsBadly(seen, init, tx);
      }
    }
  }

  lemma LastSpendsBadly(seen: set<string>, init: seq<Tx>, tx: Tx)
    ensures !tx.Commit? ==> SpendsBadly(seen, init + [tx], BadTx)
    ensures tx.Commit? && NonceKey(tx) in seen ==> SpendsBadly(seen, init + [tx], AlreadyCommitted)
    ensures tx.Commit? && NonceKey(tx) in Nonces(init) ==> SpendsBadly(seen, init + [tx], DuplicateNonce)
  {
    var txs, n := init + [tx], |init|;
    assert txs[n] == tx && forall i | 0 <= i < n :: txs[i] == init[i];
    if tx.Commit? && NonceKey(tx) in Nonces(init) {
      NonceIn(init, NonceKey(tx));
      var i :| 0 <= i < n && init[i].Commit? && init[i].from + ":" + init[i].nonce == NonceKey(tx);
      assert txs[i].Commit? && txs[n].Commit?;
    }
  }

  lemma AdmissionIsTrue(p: Params, s: State, b: Proposal)
    requires p.Valid()
    ensures Admission(p, s, b).Some? ==> TrueOf(p, s, b, Admission(p, s, b).value)
  {
    hide QCVerifies, SignedByQuorum;
    if b.justify.Some? {
      QCVerifiesIff(p, s, b.justify.value);
    }
  }

  lemma ExtensionIsTrue(p: Params, s: State, b: Proposal)
    requires p.Valid() && (b.justify.Some? ==> b.justify.value.blockHash == b.parentHash)
    ensures var r := Extension(AdoptJustify(s, b), b); r.Some? ==> TrueOf(p, s, b, r.value)
  {
    hide IsDescendant, DoubleSpend, SignedByQuorum;
    DoubleSpendIsTrue(s.seenNonces, b.txs);
  }

  /** The reason a proposal is refused for is true of it. */
  lemma RefusalIsTrue(p: Params, s: State, b: Proposal)
    requires p.Valid()
    ensures var r := Voted(p, s, b).1; r.Some? ==> TrueOf(p, s, b, r.value)
  {
    hide Admission, Extension, AdoptJustify, CastVote, TrueOf, GoodParent, Fresh, ProposedInTurn;
    VotedCases(p, s, b);
    AdmissionIsTrue(p, s, b);
    AdmissionIff(p, s, b);
    if Admission(p, s, b).None? {
      JustifyMatches(p, s, b);
      ExtensionIsTrue(p, s, b);
    }
  }

  // ------------------------------------------------------------------ what a vote changes

  /** Everything but votes, certificates and stored blocks. */
  predicate SameApart(s: State, t: State) {
    && s.childIndex == t.childIndex && s.viewChanges == t.viewChanges && s.viewChangeOrder == t.viewChangeOrder
    && s.newViews == t.newViews && s.committed == t.committed && s.committedHashes == t.committedHashes
    && s.lastCommittedHash == t.lastCommittedHash && s.seenNonces == t.seenNonces && s.expelled == t.expelled
    && s.pendingTxs == t.pendingTxs && s.pendingNonces == t.pendingNonces && s.ledger == t.ledger && s.snapshot == t.snapshot
  }

  /** The node is at the view of its vote, will not vote in it again, is locked on the parent, and has
    stored the block it waits for votes on. */
  predicate VoteKeptIn(s: State, b: Proposal, t: State) {
    && t.view == b.view && t.votedViews == s.votedViews + {b.view} && t.activeProposal == Some(b)
    && t.blocks == s.blocks[b.blockHash := b]
    && t.blockOrder == s.blockOrder + (if b.blockHash in s.blocks then [] else [b.blockHash])
    && (t.lock.None? <==> b.parentHash == Genesis)
    && (t.lock.Some? ==>
         && t.lock.value.blockHash == b.parentHash
         && (b.justify.Some? ==> t.lock.value.view == Some(b.justify.value.view))
         && (b.justify.None? && b.parentHash in t.blocks ==> t.lock.value.view == Some(t.blocks[b.parentHash].view)))
  }

  predicate NoVoteIn(s: State, t: State) {
    && t.view == s.view && t.votedViews == s.votedViews && t.activeProposal == s.activeProposal && t.lock == s.lock
    && t.blocks == s.blocks && t.blockOrder == s.blockOrder
  }

  lemma CastEffect(s: State, b: Proposal)
    requires b.view >= s.view
    ensures SameApart(s, CastVote(s, b)) && VoteKeptIn(s, b, CastVote(s, b))
    ensures CastVote(s, b).highestQC == s.highestQC && CastVote(s, b).qcByBlockHash == s.qcByBlockHash
  {
  }

  lemma AdoptEffect(s: State, b: Proposal)
    requires b.justify.Some? ==> b.justify.value.blockHash == b.parentHash
    ensures var t, adopted := AdoptJustify(s, b), b.justify.Some? && Counts(s, b.justify.value);
      && SameApart(s, t) && NoVoteIn(s, t)
      && t.highestQC == (if adopted then b.justify else s.highestQC)
      && t.qcByBlockHash == (if adopted then s.qcByBlockHash[b.parentHash := b.justify.value] else s.qcByBlockHash)
  {
  }

  /** The certificates after a proposal has been dealt with: the one it carries is kept if the proposal was
    admitted and the certificate counts, voted for or not. */
  predicate CertificatesAfter(s: State, b: Proposal, admitted: bool, t: State) {
    var adopted := admitted && b.justify.Some? && Counts(s, b.justify.value);
    && t.highestQC == (if adopted then b.justify else s.highestQC)
    && t.qcByBlockHash == (if adopted then s.qcByBlockHash[b.parentHash := b.justify.value] else s.qcByBlockHash)
  }

  /** What a vote changes; a refused proposal changes nothing but the certificates. */
  lemma VoteEffect(p: Params, s: State, b: Proposal)
    requires p.Valid()
    ensures var t := Voted(p, s, b).0;
      && SameApart(s, t) && CertificatesAfter(s, b, Admission(p, s, b).None?, t)
      && (if Votable(p, s, b) then VoteKeptIn(s, b, t) else NoVoteIn(s, t))
  {
    VotesIff(p, s, b);
    VotedCases(p, s, b);
    AdmissionIff(p, s, b);
    hide Admission, Extension, Votable, Voted, CastVote, AdoptJustify, ProposedInTurn;
    if Admission(p, s, b).None? {
      var s1 := AdoptJustify(s, b);
      AdoptEffect(s, b);
      hide SameApart, NoVoteIn, VoteKeptIn;
      SameView(s, s1);
      CastEffect(s1, b);
      AfterBoth(s, b, s1, CastVote(s1, b));
    }
  }

  lemma SameView(s: State, t: State)
    requires NoVoteIn(s, t)
    ensures t.view == s.view
  {
  }

  lemma AfterBoth(s: State, b: Proposal, s1: State, t: State)
    requires SameApart(s, s1) && NoVoteIn(s, s1) && SameApart(s1, t) && VoteKeptIn(s1, b, t)
    ensures SameApart(s, t) && VoteKeptIn(s, b, t)
  {
  }

  // ------------------------------------------------------------------ every run

  predicate DistinctCommits(txs: seq<Tx>) {
    && (forall i | 0 <= i < |txs| :: txs[i].Commit?)
    && (forall i, j | 0 <= i < j < |txs| && txs[i].Commit? && txs[j].Commit? ::
          txs[i].from + ":" + txs[i].nonce != txs[j].from + ":" + txs[j].nonce)
  }

  /** A block of the leader of its view, with commit transactions only and no key twice. */
  predicate Led(d: Deployment, h: Hash) {
    && h.Digest? && h.content.view >= 0 && d.n > 0 && |d.roster| == d.n
    && h.content.leader == d.roster[h.content.view % d.n]
    && DistinctCommits(h.content.txs)
  }

  predicate LogLed(d: Deployment, log: Log) {
    forall i | 0 <= i < |log| :: Led(d, log[i].block)
  }

  /** A proposal signed by the leader of its view over its own content. */
  predicate InTurn(d: Deployment, b: Proposal) {
    var content := Content(b.view, b.leader, b.parentHash, b.txs);
    && b.view >= 0 && d.n > 0 && |d.roster| == d.n && b.leader == d.roster[b.view % d.n]
    && b.leader in d.keys && b.sig == SignedBy(d.keys[b.leader], ProposalMessage(content)) && b.blockHash == Digest(content)
  }

  predicate AllInTurn(d: Deployment, blocks: map<Hash, Proposal>, committed: seq<Proposal>) {
    (forall h | h in blocks :: InTurn(d, blocks[h])) && (forall i | 0 <= i < |committed| :: InTurn(d, committed[i]))
  }

  predicate AllNodesInTurn(d: Deployment, nodes: map<NodeId, State>) {
    forall h | h in nodes :: AllInTurn(d, nodes[h].blocks, nodes[h].committed)
  }

  lemma NewProposalInTurn(d: Deployment, me: NodeId, s: State, view: int)
    requires ParamsOf(d, me).Valid() && ProposeRefused(ParamsOf(d, me), s, view).None?
    ensures InTurn(d, NewProposal(ParamsOf(d, me), s, view))
  {
    hide SortTxs;
  }

  lemma ProposedInTurnToo(d: Deployment, me: NodeId, s: State, view: int)
    requires ParamsOf(d, me).Valid() && AllInTurn(d, s.blocks, s.committed)
    ensures var t := Proposed(ParamsOf(d, me), s, view); AllInTurn(d, t.blocks, t.committed)
  {
    hide NewProposal, InTurn;
    if ProposeRefused(ParamsOf(d, me), s, view).None? {
      NewProposalInTurn(d, me, s, view);
    }
  }

  lemma VotedInTurn(d: Deployment, me: NodeId, s: State, b: Proposal)
    requires ParamsOf(d, me).Valid() && AllInTurn(d, s.blocks, s.committed)
    ensures var t := Voted(ParamsOf(d, me), s, b).0; AllInTurn(d, t.blocks, t.committed)
  {
    hide Voted, GoodJustify, GoodParent, Fresh;
    VoteEffect(ParamsOf(d, me), s, b);
  }

  lemma {:induction false} CommitAllInTurn(d: Deployment, s: State, bs: seq<Proposal>)
    requires AllInTurn(d, s.blocks, s.committed) && forall b | b in bs :: InTurn(d, b)
    ensures var t := CommitAll(s, bs); AllInTurn(d, t.blocks, t.committed)
  {
    hide InTurn;
    if bs != [] {
      CommitAllInTurn(d, s, bs[..|bs| - 1]);
    }
  }

  lemma CommitCheckedInTurn(d: Deployment, s: State)
    requires AllInTurn(d, s.blocks, s.committed)
    ensures var t := CommitChecked(s); AllInTurn(d, t.blocks, t.committed)
  {
    hide InTurn;
    var candidates := Candidates(s, s.blockOrder);
    forall b | b in SortByView(candidates) ensures InTurn(d, b) {
      assert multiset(SortByView(candidates)) == multiset(candidates);
      assert b in multiset(SortByView(candidates)) && b in candidates;
    }
    CommitAllInTurn(d, s, SortByView(candidates));
  }

  lemma OtherCallsStoreNothing(p: Params, s: State, c: Call)
    requires p.Valid() && !c.Propose? && !c.VoteOn? && !c.CommitCheck? && !c.ProposeNewView?
    ensures After(p, s, c).blocks == s.blocks && After(p, s, c).committed == s.committed
  {
    hide Collected, Aggregated, AdoptedNewView, Submitted, TimedOut, ReceivedViewChange, FileViewChange, OwnViewChange;
    match c
    case CollectVotes(votes) => CollectingStoresNothing(p, s, votes);
    case Timeout =>
      TimingOutStoresNothing(p, s);
    case ReceiveViewChange(vc) => ReceivingStoresNothing(p, s, vc);
    case _ => RestStoresNothing(p, s, c);
  }

  lemma CollectingStoresNothing(p: Params, s: State, votes: seq<Endorsement<Message>>)
    ensures Collected(p, s, votes).blocks == s.blocks && Collected(p, s, votes).committed == s.committed
  {
    hide CollectedQC;
  }

  lemma ReceivingStoresNothing(p: Params, s: State, vc: ViewChange)
    ensures ReceivedViewChange(p, s, vc).blocks == s.blocks && ReceivedViewChange(p, s, vc).committed == s.committed
  {
    hide AcceptsViewChange;
  }

  lemma RestStoresNothing(p: Params, s: State, c: Call)
    requires p.Valid() && (c.AggregateNewView? || c.AdoptNewView? || c.Expel? || c.Submit?)
    ensures After(p, s, c).blocks == s.blocks && After(p, s, c).committed == s.committed
  {
    hide AggregatedNewView, RejectsAnchor, AcceptsTx;
  }

  lemma TimingOutStoresNothing(p: Params, s: State)
    requires p.Valid()
    ensures TimedOut(p, s).blocks == s.blocks && TimedOut(p, s).committed == s.committed
  {
    hide OwnViewChange;
  }

  lemma NewViewStoresNothing(p: Params, s: State, view: int)
    ensures var nv := AggregatedNewView(p, s, view);
      nv.Some? ==>
        var t := AdoptedNewView(p, Aggregated(p, s, view), nv.value);
        t.blocks == s.blocks && t.committed == s.committed && Aggregated(p, s, view).blocks == s.blocks
  {
    hide AggregatedNewView, RejectsAnchor;
  }

  lemma AfterInTurn(d: Deployment, me: NodeId, s: State, c: Call)
    requires ParamsOf(d, me).Valid() && AllInTurn(d, s.blocks, s.committed)
    ensures var t := After(ParamsOf(d, me), s, c); AllInTurn(d, t.blocks, t.committed)
  {
    hide AllInTurn, Proposed, Voted, CommitChecked, AggregatedNewView, RejectsAnchor, AdoptedNewView,
         Collected, TimedOut, ReceivedViewChange;
    var p := ParamsOf(d, me);
    match c
    case Propose(view) => ProposedInTurnToo(d, me, s, view);
    case VoteOn(b) => VotedInTurn(d, me, s, b);
    case CommitCheck => CommitCheckedInTurn(d, s);
    case ProposeNewView(view) =>
      var nv := AggregatedNewView(p, s, view);
      NewViewStoresNothing(p, s, view);
      if nv.Some? {
        ProposedInTurnToo(d, me, AdoptedNewView(p, Aggregated(p, s, view), nv.value), view);
      }
    case _ => OtherCallsStoreNothing(p, s, c);
  }

  lemma CastIsLed(d: Deployment, me: NodeId, s: State, c: Call)
    requires ParamsOf(d, me).Valid()
    ensures LogLed(d, CastBy(ParamsOf(d, me), s, c))
  {
    hide Voted, GoodJustify, GoodParent;
    if c.VoteOn? {
      VotesIff(ParamsOf(d, me), s, c.proposal);
    }
  }

  /** In every run every honest vote is for a block of the leader of its view, with commit transactions only
    and no key twice; and whatever an honest node stores or commits was proposed and signed by the leader
    of its view. */
  lemma {:induction false} VotesAreLed(d: Deployment, run: seq<Sys>, i: nat)
    requires d.Valid() && IsRun(d, run) && i < |run|
    ensures LogLed(d, run[i].log) && AllNodesInTurn(d, run[i].nodes)
  {
    hide Led, AllInTurn, After, CastBy, Deployment.Valid;
    if i > 0 {
      VotesAreLed(d, run, i - 1);
      assert StepAt(d, run, i - 1);
      var h, c :| StepOf(d, run[i - 1], run[i], h, c);
      CastIsLed(d, h, run[i - 1].nodes[h], c);
      AfterInTurn(d, h, run[i - 1].nodes[h], c);
    } else {
      StartsInTurn(d);
    }
  }

  lemma StartsInTurn(d: Deployment)
    ensures AllInTurn(d, InitialState.blocks, InitialState.committed)
  {
  }

  /** Hence every block anybody can hold a certificate for, and every block an honest node commits, is one
    of the leader of its view. */
  lemma CertifiedIsLed(d: Deployment, run: seq<Sys>, i: nat, b: Hash)
    requires d.Valid() && IsRun(d, run) && i < |run| && Certified(d, run[i].log, b)
    ensures Led(d, b)
  {
    hide IsRun, Led, Certified;
    ValidSizes(d);
    VotesAreLed(d, run, i);
    var k := FirstVote(d, run[i].log, b);
  }

  lemma CommittedIsLed(d: Deployment, run: seq<Sys>, i: nat, h: NodeId, k: nat)
    requires d.Valid() && IsRun(d, run) && i < |run| && h in d.honest && h in run[i].nodes
    requires k < |run[i].nodes[h].committed|
    ensures var b := run[i].nodes[h].committed[k];
      && Led(d, b.blockHash) && b.leader == b.blockHash.content.leader == d.roster[b.view % d.n]
      && b.sig == SignedBy(d.keys[b.leader], ProposalMessage(b.blockHash.content))
      && DistinctCommits(b.txs)
  {
    hide IsRun, Led, Certified;
    VotesAreLed(d, run, i);
    RunKeepsInv(d, run, i);
    var b := run[i].nodes[h].committed[k];
    assert NodeInv(d, h, run[i].log, run[i].nodes[h]);
    assert Final(d, run[i].log, b.blockHash);
    var b1, b2 :| HeadsTriple(d, run[i].log, b.blockHash, b1, b2);
    CertifiedIsLed(d, run, i, b.blockHash);
    LedMeans(d, b);
  }

  lemma LedMeans(d: Deployment, b: Proposal)
    requires Led(d, b.blockHash) && InTurn(d, b)
    ensures b.leader == b.blockHash.content.leader == d.roster[b.view % d.n] && DistinctCommits(b.txs)
    ensures b.sig == SignedBy(d.keys[b.leader], ProposalMessage(b.blockHash.content))
  {
  }
}
