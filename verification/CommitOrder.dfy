/** The order in which one node commits, over any run (phase5/vap-to.mjs: commitBlock, commitCheck): in
  increasing views along one chain, check after check. Whether the committed blocks have gaps is another
  matter: the parent of a committed block is skipped exactly if the node does not have it stored or did not
  collect the votes for the block itself. */
module CommitOrder {
  import opened Wrappers
  import opened Endorse
  import opened Blocks
  import opened NodeState
  import opened VoteLog
  import opened Protocol
  import opened Commit
  import opened ChildIndex
  import Recovery

  // ------------------------------------------------------------------ certified before built upon

  predicate Anchor(h: Hash, certified: set<Hash>) {
    h == Genesis || h in certified
  }

  /** The highest certificate is on file, and whatever has an active or an indexed child is certified. */
  predicate Anchored(highest: Option<QC>, active: Option<Proposal>, certified: set<Hash>, index: map<Hash, Hash>,
                     last: Hash) {
    && (if highest.Some? then highest.value.blockHash in certified else certified == {} && last == Genesis)
    && (active.Some? ==> Anchor(active.value.parentHash, certified))
    && (forall h | h in index :: Anchor(h, certified))
  }

  predicate NodeAnchored(s: State) {
    Anchored(s.highestQC, s.activeProposal, s.qcByBlockHash.Keys, s.childIndex, s.lastCommittedHash)
  }

  /** No block is lost, and blocks stored since are of the current view or later. */
  predicate StoredLater(s: State, t: State) {
    && s.blocks.Keys <= t.blocks.Keys
    && forall h | h in t.blocks && h !in s.blocks :: h.Digest? && h.content.view >= s.view
  }

  lemma AdoptAnchored(s: State, qc: QC)
    requires NodeAnchored(s)
    ensures NodeAnchored(Adopt(s, qc)) && StoredLater(s, Adopt(s, qc))
  {
  }

  lemma StoreAnchored(s: State, b: Proposal, t: State)
    requires NodeAnchored(s) && Anchor(b.parentHash, s.qcByBlockHash.Keys) && b.view >= s.view
    requires b.blockHash == HashBlock(b)
    requires t.blocks == StoreBlock(s, b).blocks && t.highestQC == s.highestQC && t.activeProposal == Some(b)
    requires t.qcByBlockHash == s.qcByBlockHash && t.childIndex == s.childIndex
    requires t.lastCommittedHash == s.lastCommittedHash
    ensures NodeAnchored(t) && StoredLater(s, t)
  {
  }

  lemma ProposedAnchored(p: Params, s: State, view: int)
    requires p.Valid() && NodeAnchored(s)
    ensures NodeAnchored(Proposed(p, s, view)) && StoredLater(s, Proposed(p, s, view))
  {
    hide SortTxs, NodeAnchored, StoredLater;
    if ProposeRefused(p, s, view).None? {
      BaselineAnchor(s);
      StoreAnchored(s, NewProposal(p, s, view), Proposed(p, s, view));
    } else {
      SameAnchored(s, s);
    }
  }

  lemma BaselineAnchor(s: State)
    requires NodeAnchored(s)
    ensures Anchor(Baseline(s), s.qcByBlockHash.Keys)
  {
  }

  lemma SameAnchored(s: State, t: State)
    requires NodeAnchored(s)
    requires t.blocks == s.blocks && t.highestQC == s.highestQC && t.activeProposal == s.activeProposal
    requires t.qcByBlockHash == s.qcByBlockHash && t.childIndex == s.childIndex
    requires t.lastCommittedHash == s.lastCommittedHash
    ensures NodeAnchored(t) && StoredLater(s, t)
  {
  }

  lemma VotedAnchored(p: Params, s: State, b: Proposal)
    requires p.Valid() && NodeAnchored(s)
    ensures NodeAnchored(Voted(p, s, b).0) && StoredLater(s, Voted(p, s, b).0)
  {
    hide NodeAnchored, StoredLater, Admission, Extension, NodeState.Voted, AdoptJustify, CastVote;
    VotedCases(p, s, b);
    SameAnchored(s, s);
    if Admission(p, s, b).None? {
      var s1 := AdoptJustify(s, b);
      JustifyAnchored(s, b);
      if Extension(s1, b).None? {
        CastAnchored(s1, b);
        LaterTwice(s, s1, CastVote(s1, b));
      }
    }
  }

  lemma JustifyAnchored(s: State, b: Proposal)
    requires NodeAnchored(s)
    ensures NodeAnchored(AdoptJustify(s, b)) && StoredLater(s, AdoptJustify(s, b)) && AdoptJustify(s, b).view == s.view
  {
    if AdoptJustify(s, b) != s {
      AdoptAnchored(s, b.justify.value);
    }
  }

  lemma CastAnchored(s: State, b: Proposal)
    requires NodeAnchored(s) && Extension(s, b).None? && b.view >= s.view && b.blockHash == HashBlock(b)
    ensures NodeAnchored(CastVote(s, b)) && StoredLater(s, CastVote(s, b))
  {
    StoreAnchored(s, b, CastVote(s, b));
  }

  lemma LaterTwice(s: State, s1: State, t: State)
    requires StoredLater(s, s1) && StoredLater(s1, t) && s1.view >= s.view
    ensures StoredLater(s, t)
  {
  }

  lemma ProposedNewViewAnchored(p: Params, s: State, view: int)
    requires p.Valid() && NodeAnchored(s)
    ensures NodeAnchored(ProposedNewView(p, s, view)) && StoredLater(s, ProposedNewView(p, s, view))
  {
    hide NodeAnchored, StoredLater, Proposed, RejectsAnchor, AggregatedNewView;
    SameAnchored(s, s);
    var nv := AggregatedNewView(p, s, view);
    if view >= 0 && p.LeaderOf(view) == p.me && nv.Some? {
      var s1 := Aggregated(p, s, view);
      SameAnchored(s, s1);
      if !RejectsAnchor(p, s1, nv.value) {
        var s2 := AdoptedNewView(p, s1, nv.value);
        NewViewAnchored(p, s1, nv.value);
        ProposedAnchored(p, s2, view);
        LaterTwice(s, s1, s2);
        LaterTwice(s, s2, Proposed(p, s2, view));
      }
    }
  }

  lemma NewViewAnchored(p: Params, s: State, nv: NewView)
    requires NodeAnchored(s)
    ensures NodeAnchored(AdoptedNewView(p, s, nv)) && StoredLater(s, AdoptedNewView(p, s, nv))
    ensures AdoptedNewView(p, s, nv).view == s.view
  {
    hide RejectsAnchor;
    if nv.anchorQC.Some? {
      AdoptAnchored(s, nv.anchorQC.value);
    }
  }

  lemma FiledAnchored(s: State, vc: ViewChange)
    requires NodeAnchored(s)
    ensures NodeAnchored(FileViewChange(s, vc)) && StoredLater(s, FileViewChange(s, vc))
  {
    SameAnchored(s, FileViewChange(s, vc));
  }

  lemma TimedOutAnchored(p: Params, s: State)
    requires p.Valid() && NodeAnchored(s)
    ensures NodeAnchored(TimedOut(p, s)) && StoredLater(s, TimedOut(p, s))
  {
    hide NodeAnchored, StoredLater, OwnViewChange;
    SameAnchored(s, TimedOut(p, s));
  }

  lemma ReceivedAnchored(p: Params, s: State, vc: ViewChange)
    requires NodeAnchored(s)
    ensures NodeAnchored(ReceivedViewChange(p, s, vc)) && StoredLater(s, ReceivedViewChange(p, s, vc))
  {
    hide NodeAnchored, StoredLater, AcceptsViewChange, FileViewChange;
    SameAnchored(s, s);
    FiledAnchored(s, vc);
  }

  lemma AggregatedAnchored(p: Params, s: State, view: int)
    requires NodeAnchored(s)
    ensures NodeAnchored(Aggregated(p, s, view)) && StoredLater(s, Aggregated(p, s, view))
  {
    hide NodeAnchored, StoredLater, AggregatedNewView;
    SameAnchored(s, Aggregated(p, s, view));
  }

  lemma ExpelledAnchored(s: State, id: NodeId)
    requires NodeAnchored(s)
    ensures NodeAnchored(Expelled(s, id)) && StoredLater(s, Expelled(s, id))
  {
    hide NodeAnchored, StoredLater;
    SameAnchored(s, Expelled(s, id));
  }

  lemma SubmittedAnchored(s: State, tx: Tx)
    requires NodeAnchored(s)
    ensures NodeAnchored(Submitted(s, tx)) && StoredLater(s, Submitted(s, tx))
  {
    hide NodeAnchored, StoredLater, AcceptsTx;
    SameAnchored(s, Submitted(s, tx));
  }

  /** A call that neither collects nor checks for commits. */
  lemma QuietAnchored(p: Params, s: State, c: Call)
    requires p.Valid() && NodeAnchored(s) && !c.CollectVotes? && !c.CommitCheck?
    ensures NodeAnchored(After(p, s, c)) && StoredLater(s, After(p, s, c))
  {
    hide NodeAnchored, StoredLater, Proposed, NodeState.Voted, TimedOut, ReceivedViewChange, Aggregated,
         AdoptedNewView, ProposedNewView, Submitted, Expelled;
    match c
    case Propose(view) => ProposedAnchored(p, s, view);
    case VoteOn(b) => VotedAnchored(p, s, b);
    case AdoptNewView(nv) => NewViewAnchored(p, s, nv);
    case ProposeNewView(view) => ProposedNewViewAnchored(p, s, view);
    case Timeout => TimedOutAnchored(p, s);
    case ReceiveViewChange(vc) => ReceivedAnchored(p, s, vc);
    case AggregateNewView(view) => AggregatedAnchored(p, s, view);
    case Expel(id) => ExpelledAnchored(s, id);
    case Submit(tx) => SubmittedAnchored(s, tx);
  }

  // ------------------------------------------------------------------ what is left to commit is later

  function ViewOf(h: Hash): int {
    if h.Digest? then h.content.view else -1
  }

  /** What is committed still has its indexed child and grandchild. */
  predicate Paired(committed: set<Hash>, index: map<Hash, Hash>) {
    forall x | x in committed :: x in index && index[x] in index
  }

  /** Whatever could be committed now is later than everything committed. */
  ghost predicate Later(s: State) {
    forall x, y | x in s.committedHashes && Committable(s, y) :: ViewOf(x) < ViewOf(y)
  }

  predicate InViewOrder(bs: seq<Proposal>) {
    forall j, k | 0 <= j < k < |bs| :: ViewOf(bs[j].blockHash) < ViewOf(bs[k].blockHash)
  }

  ghost predicate Ordered(s: State) {
    && NodeAnchored(s) && Paired(s.committedHashes, s.childIndex) && Later(s)
    && InViewOrder(s.committed) && s.committedHashes == Hashes(s.committed) && s.committedHashes <= s.blocks.Keys
  }

  lemma IndexedChild(d: Deployment, me: NodeId, log: Log, s: State, h: Hash)
    requires Fit(d, me, log, s) && h in s.childIndex
    ensures var c := s.childIndex[h];
            && c in s.blocks && c in s.qcByBlockHash && c.Digest? && c.content.parentHash == h && Certified(d, log, c)
            && (h != Genesis ==> Certified(d, log, h) && ViewOf(h) < ViewOf(c))
            && s.activeProposal.Some? && ViewOf(c) <= s.activeProposal.value.view <= s.view
  {
    hide Lawful, BlocksFiled, VotesKept, CommitsFinal, Certified;
    assert NotLater(s.childIndex[h], s.highestQC, s.activeProposal);
    assert Backed(d, log, s.qcByBlockHash[s.childIndex[h]]);
    ParentCertifiedInSmallerView(d, log, s.childIndex[h]);
  }

  /** Storing later blocks and learning certificates makes nothing committable that was not. */
  lemma NothingNewCommittable(d: Deployment, me: NodeId, log: Log, s: State, t: State, y: Hash)
    requires Fit(d, me, log, s) && NodeAnchored(s) && StoredLater(s, t) && t.childIndex == s.childIndex
    requires WellFiled(t.blocks) && t.committedHashes == s.committedHashes && Committable(t, y)
    ensures Committable(s, y)
  {
    hide Lawful, NodeInv, NodePlaced;
    IndexedChild(d, me, log, s, y);
    var c := s.childIndex[y];
    assert t.blocks[c].blockHash == c;
    IndexedChild(d, me, log, s, c);
    assert y in s.qcByBlockHash && y in s.blocks;
    StoredUnderOwnHash(d, me, log, s, c);
  }

  lemma StoredUnderOwnHash(d: Deployment, me: NodeId, log: Log, s: State, c: Hash)
    requires NodeInv(d, me, log, s) && c in s.blocks
    ensures s.blocks[c].blockHash == c
  {
  }

  lemma QuietOrdered(d: Deployment, log: Log, s: State, h: NodeId, c: Call, log': Log)
    requires d.Valid() && h in d.honest && Fit(d, h, log, s) && ParamsOf(d, h).Valid() && Ordered(s)
    requires !c.CollectVotes? && !c.CommitCheck? && NodeInv(d, h, log', After(ParamsOf(d, h), s, c))
    ensures Ordered(After(ParamsOf(d, h), s, c))
  {
    hide Fit, NodeAnchored, After, StoredLater, Committable, Deployment.Valid, Paired, InViewOrder,
         Recovery.BlocksAuthentic;
    var p := ParamsOf(d, h);
    var t := After(p, s, c);
    QuietAnchored(p, s, c);
    KeptBlocks(s, t);
    OnlyCollectingIndexes(p, s, c);
    Recovery.AfterQuiet(p, s, c);
    FiledWell(d, h, log', t);
    forall y | Committable(t, y) ensures Committable(s, y) {
      NothingNewCommittable(d, h, log, s, t, y);
    }
  }

  lemma KeptBlocks(s: State, t: State)
    requires StoredLater(s, t)
    ensures s.blocks.Keys <= t.blocks.Keys
  {
  }

  lemma FiledWell(d: Deployment, me: NodeId, log: Log, s: State)
    requires NodeInv(d, me, log, s)
    ensures WellFiled(s.blocks)
  {
  }

  // ------------------------------------------------------------------ collecting

  /** The heads of two certified triples, the second of which ends in a block that is not earlier. */
  lemma LaterTripleLaterHead(d: Deployment, log: Log, x: Hash, cx: Hash, gx: Hash, y: Hash, p: Hash, c: Hash)
    requires d.Sizes() && Lawful(d, log) && HeadsTriple(d, log, x, cx, gx) && HeadsTriple(d, log, y, p, c)
    requires x != y && gx.content.view <= c.content.view
    ensures x.content.view < y.content.view
  {
    hide Lawful, Support;
    ParentCertifiedInSmallerView(d, log, gx);
    ParentCertifiedInSmallerView(d, log, cx);
    if gx.content.view == c.content.view {
      OneCertifiedBlockPerView(d, log, gx, c);
    } else {
      LockFreezing(d, log, cx, gx, c);
      assert Extends(c, cx) && c != cx && Extends(p, cx) && p != cx && Extends(y, cx);
      AncestorsCertifiedInSmallerViews(d, log, y, cx);
    }
  }

  /** What a collection changes besides the certificates: at most one entry, for a parent not indexed. */
  predicate FilesOne(s: State, t: State, c: Hash) {
    && t.blocks == s.blocks && t.committed == s.committed && t.committedHashes == s.committedHashes
    && t.lastCommittedHash == s.lastCommittedHash && t.activeProposal == s.activeProposal
    && s.activeProposal.Some? && s.activeProposal.value.blockHash == c && s.activeProposal.value.parentHash == ParentOf(c)
    && c.Digest? && c.content.view == s.activeProposal.value.view
    && t.highestQC.Some? && t.highestQC.value.blockHash == c && t.qcByBlockHash.Keys == s.qcByBlockHash.Keys + {c}
    && t.childIndex == s.childIndex[ParentOf(c) := c]
    && (ParentOf(c) in s.childIndex ==> s.childIndex[ParentOf(c)] == c)
  }

  lemma CollectedFiles(d: Deployment, me: NodeId, log: Log, s: State, votes: seq<Endorsement<Message>>)
    requires NodeInv(d, me, log, s) && NodePlaced(s)
    ensures var t := Collected(ParamsOf(d, me), s, votes);
            t == s || (s.activeProposal.Some? && FilesOne(s, t, s.activeProposal.value.blockHash))
  {
    hide QCsBacked, ChildrenIndexed, VotesKept, CommitsFinal, ValidSigners, Kept, NodePlaced;
    var qc := CollectedQC(ParamsOf(d, me), s, votes);
    CollectedPlaced(d, me, log, s, votes);
    if qc.Some? {
      ActiveIsStored(s.blocks, s.blockOrder, s.activeProposal);
    }
  }

  lemma FiledAnchor(s: State, t: State, c: Hash)
    requires FilesOne(s, t, c) && NodeAnchored(s) && Paired(s.committedHashes, s.childIndex)
    ensures NodeAnchored(t) && Paired(t.committedHashes, t.childIndex)
  {
  }

  /** What the entry makes committable is later than everything committed. */
  lemma FiledLater(d: Deployment, me: NodeId, log: Log, s: State, t: State, c: Hash, x: Hash, y: Hash)
    requires Fit(d, me, log, s) && NodeInv(d, me, log, t) && FilesOne(s, t, c) && Ordered(s)
    requires x in s.committedHashes && Committable(t, y)
    ensures ViewOf(x) < ViewOf(y)
  {
    hide Fit, NodeInv, Committable, InViewOrder, NodeAnchored, Paired;
    Unfit(d, me, log, s);
    var p := ParentOf(c);
    if p in s.childIndex {
      assert t.childIndex == s.childIndex;
    }
    TripleOf(d, me, log, t, y);
    if y in s.childIndex && s.childIndex[y] in s.childIndex {
      StillCommittable(d, me, log, s, t, c, y);
    } else if y == p && y !in s.childIndex {
      IndexedChild(d, me, log, s, c);
      assert false;
    } else {
      assert s.childIndex[y] == p && t.childIndex[p] == c;
      NewTripleLater(d, me, log, s, t, c, x, y);
    }
  }

  lemma Unfit(d: Deployment, me: NodeId, log: Log, s: State)
    requires Fit(d, me, log, s)
    ensures d.Sizes() && Lawful(d, log) && NodeInv(d, me, log, s) && NodePlaced(s)
  {
  }

  lemma TripleOf(d: Deployment, me: NodeId, log: Log, s: State, y: Hash)
    requires NodeInv(d, me, log, s) && Committable(s, y)
    ensures y in s.blocks && y in s.qcByBlockHash && y !in s.committedHashes
    ensures y in s.childIndex && s.childIndex[y] in s.childIndex
    ensures HeadsTriple(d, log, y, s.childIndex[y], s.childIndex[s.childIndex[y]])
  {
    hide VotesKept, CommitsFinal, Certified;
    var child := s.childIndex[y];
    assert s.blocks[child].blockHash == child;
    assert Backed(d, log, s.qcByBlockHash[y]) && Backed(d, log, s.qcByBlockHash[child]);
    assert Backed(d, log, s.qcByBlockHash[s.childIndex[child]]);
  }

  lemma StillCommittable(d: Deployment, me: NodeId, log: Log, s: State, t: State, c: Hash, y: Hash)
    requires Fit(d, me, log, s) && NodeInv(d, me, log, t) && FilesOne(s, t, c) && NodeAnchored(s) && Committable(t, y)
    requires y in s.childIndex && s.childIndex[y] in s.childIndex
    ensures Committable(s, y)
  {
    hide Lawful, NodePlaced, QCsBacked, VotesKept, CommitsFinal;
    var child := s.childIndex[y];
    assert child in s.blocks && s.blocks[child].blockHash == child && s.childIndex[child] in s.blocks;
    assert y.Digest?;
  }

  lemma NewTripleLater(d: Deployment, me: NodeId, log: Log, s: State, t: State, c: Hash, x: Hash, y: Hash)
    requires Fit(d, me, log, s) && NodeInv(d, me, log, t) && FilesOne(s, t, c) && Ordered(s)
    requires x in s.committedHashes && Committable(t, y) && y in s.childIndex
    requires s.childIndex[y] == ParentOf(c) && t.childIndex[y] == ParentOf(c)
    ensures ViewOf(x) < ViewOf(y)
  {
    hide NodeInv, Lawful, NodePlaced, Committable, InViewOrder, NodeAnchored, Later;
    var cx := s.childIndex[x];
    CommittedTriple(d, me, log, s, x);
    TripleOf(d, me, log, t, y);
    IndexedChild(d, me, log, s, cx);
    LaterTripleLaterHead(d, log, x, cx, s.childIndex[cx], y, ParentOf(c), c);
  }

  /** Committed blocks still head the indexed triple they were committed for. */
  lemma CommittedTriple(d: Deployment, me: NodeId, log: Log, s: State, x: Hash)
    requires Fit(d, me, log, s) && Ordered(s) && x in s.committedHashes
    ensures x in s.childIndex && s.childIndex[x] in s.childIndex
    ensures HeadsTriple(d, log, x, s.childIndex[x], s.childIndex[s.childIndex[x]])
  {
    hide Lawful, NodePlaced, QCsBacked, VotesKept, BlocksFiled, Certified, NodeAnchored, Later, InViewOrder;
    var i :| 0 <= i < |s.committed| && s.committed[i].blockHash == x;
    assert Final(d, log, s.committed[i].blockHash);
    FinalIsCertified(d, log, x);
    IndexedChild(d, me, log, s, x);
    IndexedChild(d, me, log, s, s.childIndex[x]);
  }

  lemma FinalIsCertified(d: Deployment, log: Log, x: Hash)
    requires Final(d, log, x)
    ensures Certified(d, log, x)
  {
  }

  lemma CollectOrdered(d: Deployment, log: Log, s: State, h: NodeId, votes: seq<Endorsement<Message>>)
    requires Fit(d, h, log, s) && Ordered(s) && NodeInv(d, h, log, Collected(ParamsOf(d, h), s, votes))
    ensures Ordered(Collected(ParamsOf(d, h), s, votes))
  {
    hide Fit, NodeInv, NodeAnchored, Paired, InViewOrder, Committable, Collected, FilesOne;
    var t := Collected(ParamsOf(d, h), s, votes);
    Unfit(d, h, log, s);
    CollectedFiles(d, h, log, s, votes);
    if t != s {
      var c := s.activeProposal.value.blockHash;
      FiledAnchor(s, t, c);
      FiledFrame(s, t, c);
      forall x, y | x in s.committedHashes && Committable(t, y) ensures ViewOf(x) < ViewOf(y) {
        FiledLater(d, h, log, s, t, c, x, y);
      }
    }
  }

  lemma FiledFrame(s: State, t: State, c: Hash)
    requires FilesOne(s, t, c)
    ensures t.committed == s.committed && t.committedHashes == s.committedHashes && t.blocks == s.blocks
  {
  }

  // ------------------------------------------------------------------ checking for commits

  lemma ViewsAreHashes(d: Deployment, me: NodeId, log: Log, s: State, b: Proposal)
    requires NodeInv(d, me, log, s) && b.blockHash in s.blocks && b == s.blocks[b.blockHash]
    ensures b.blockHash.Digest? && b.view == ViewOf(b.blockHash)
  {
    hide QCsBacked, ChildrenIndexed, VotesKept, CommitsFinal;
  }

  /** The blocks added by a check are in strictly increasing views. */
  lemma AddedInViewOrder(d: Deployment, me: NodeId, log: Log, s: State, added: seq<Proposal>)
    requires Fit(d, me, log, s) && SortedByView(added) && Commit.Distinct(added)
    requires forall h | h in Hashes(added) :: Committable(s, h)
    requires forall b | b in added :: b.blockHash in s.blocks && b == s.blocks[b.blockHash]
    ensures InViewOrder(added)
  {
    hide Fit, NodeInv, Lawful, Committable;
    Unfit(d, me, log, s);
    forall j, k | 0 <= j < k < |added| ensures ViewOf(added[j].blockHash) < ViewOf(added[k].blockHash) {
      assert added[j].blockHash in Hashes(added) && added[k].blockHash in Hashes(added);
      assert added[j] in added && added[k] in added;
      TripleOf(d, me, log, s, added[j].blockHash);
      TripleOf(d, me, log, s, added[k].blockHash);
      ViewsAreHashes(d, me, log, s, added[j]);
      ViewsAreHashes(d, me, log, s, added[k]);
      if ViewOf(added[j].blockHash) == ViewOf(added[k].blockHash) {
        OneCertifiedBlockPerView(d, log, added[j].blockHash, added[k].blockHash);
      }
    }
  }

  lemma OrderPushed(bs: seq<Proposal>, b: Proposal)
    ensures InViewOrder(bs + [b]) <==> InViewOrder(bs) && forall x | x in Hashes(bs) :: ViewOf(x) < ViewOf(b.blockHash)
  {
    hide ViewOf;
    var all := bs + [b];
    assert all[|bs|] == b && forall i | 0 <= i < |bs| :: all[i] == bs[i];
    if InViewOrder(all) {
      forall j, k | 0 <= j < k < |bs| ensures ViewOf(bs[j].blockHash) < ViewOf(bs[k].blockHash) {
        assert ViewOf(all[j].blockHash) < ViewOf(all[k].blockHash);
      }
      forall x | x in Hashes(bs) ensures ViewOf(x) < ViewOf(b.blockHash) {
        var i :| 0 <= i < |bs| && bs[i].blockHash == x;
        assert ViewOf(all[i].blockHash) < ViewOf(all[|bs|].blockHash);
      }
    }
    if InViewOrder(bs) && forall x | x in Hashes(bs) :: ViewOf(x) < ViewOf(b.blockHash) {
      forall j, k | 0 <= j < k < |all| ensures ViewOf(all[j].blockHash) < ViewOf(all[k].blockHash) {
        if k == |bs| {
          assert bs[j].blockHash in Hashes(bs);
        }
      }
    }
  }

  lemma {:induction false} JoinedInOrder(a: seq<Proposal>, b: seq<Proposal>)
    requires InViewOrder(a) && InViewOrder(b)
    requires forall x, y | x in Hashes(a) && y in Hashes(b) :: ViewOf(x) < ViewOf(y)
    ensures InViewOrder(a + b) && Hashes(a + b) == Hashes(a) + Hashes(b)
  {
    hide InViewOrder, Hashes, ViewOf;
    if b == [] {
      NoHashes();
      assert a + b == a;
    } else {
      var init, last := b[..|b| - 1], b[|b| - 1];
      assert b == init + [last] && a + b == a + init + [last];
      HashesAppend(init, last);
      OrderPushed(init, last);
      JoinedInOrder(a, init);
      HashesAppend(a + init, last);
      OrderPushed(a + init, last);
    }
  }

  lemma NoHashes()
    ensures Hashes([]) == {}
  {
  }

  lemma CheckFrame(s: State, bs: seq<Proposal>)
    ensures var t := CommitAll(s, bs);
            && t.highestQC == s.highestQC && t.activeProposal == s.activeProposal && t.qcByBlockHash == s.qcByBlockHash
            && t.childIndex == s.childIndex && t.blocks == s.blocks
  {
    if bs != [] {
      CheckFrame(s, bs[..|bs| - 1]);
    }
  }

  lemma CheckOrdered(d: Deployment, log: Log, s: State, h: NodeId)
    requires Fit(d, h, log, s) && Ordered(s)
    ensures Ordered(CommitChecked(s)) && forall y :: !Committable(CommitChecked(s), y)
  {
    hide Fit, NodeInv, NodeAnchored, Paired, InViewOrder, Committable, CommitChecked, CommitAll, Hashes, SortedByView,
         Commit.Distinct;
    Unfit(d, h, log, s);
    var added := CommitCheckCommitsExactly(d, h, log, s);
    var t := CommitChecked(s);
    forall y | y in Hashes(added)
      ensures y !in s.committedHashes && y in s.childIndex && s.childIndex[y] in s.childIndex && y in s.blocks
    {
      TripleOf(d, h, log, s, y);
    }
    CommitAllAppends(s, added);
    CheckFrame(s, added);
    AddedInViewOrder(d, h, log, s, added);
    JoinedInOrder(s.committed, added);
    NothingLeftToCommit(s, t, added);
    CheckAnchored(s, t, added);
    PairedMore(s.committedHashes, Hashes(added), s.childIndex);
  }

  lemma NothingLeftToCommit(s: State, t: State, added: seq<Proposal>)
    requires t.blocks == s.blocks && t.qcByBlockHash == s.qcByBlockHash && t.childIndex == s.childIndex
    requires t.committedHashes == s.committedHashes + Hashes(added)
    requires forall h :: h in Hashes(added) <==> Committable(s, h)
    ensures forall y :: !Committable(t, y)
  {
    hide Hashes;
    assert forall y | y !in t.committedHashes :: !Committable(s, y);
  }

  lemma CheckAnchored(s: State, t: State, added: seq<Proposal>)
    requires NodeAnchored(s) && t == CommitAll(s, added) && forall h | h in Hashes(added) :: Committable(s, h)
    requires t.highestQC == s.highestQC && t.activeProposal == s.activeProposal && t.qcByBlockHash == s.qcByBlockHash
    requires t.childIndex == s.childIndex
    ensures NodeAnchored(t)
  {
    hide Hashes, CommitAll;
    assert added != [] ==> added[0].blockHash in Hashes(added) by { FirstHash(added); }
    if added == [] {
      assert t == s by { NoneAdded(s); }
    }
  }

  lemma FirstHash(bs: seq<Proposal>)
    ensures bs != [] ==> bs[0].blockHash in Hashes(bs)
  {
  }

  lemma NoneAdded(s: State)
    ensures CommitAll(s, []) == s
  {
  }

  lemma PairedMore(committed: set<Hash>, more: set<Hash>, index: map<Hash, Hash>)
    requires Paired(committed, index) && forall y | y in more :: y in index && index[y] in index
    ensures Paired(committed + more, index)
  {
  }

  // ------------------------------------------------------------------ in every run

  lemma CallOrdered(d: Deployment, log: Log, s: State, h: NodeId, c: Call, log': Log)
    requires d.Valid() && h in d.honest && Fit(d, h, log, s) && ParamsOf(d, h).Valid() && Ordered(s)
    requires NodeInv(d, h, log', After(ParamsOf(d, h), s, c)) && (c.CollectVotes? ==> log' == log)
    ensures Ordered(After(ParamsOf(d, h), s, c))
  {
    hide Fit, NodeInv, Ordered, Collected, CommitChecked, Deployment.Valid;
    match c
    case CollectVotes(votes) => CollectOrdered(d, log, s, h, votes);
    case CommitCheck => CheckOrdered(d, log, s, h);
    case _ => QuietOrdered(d, log, s, h, c, log');
  }

  ghost predicate AllOrdered(s: Sys) {
    forall h | h in s.nodes :: Ordered(s.nodes[h])
  }

  lemma StepOrdered(d: Deployment, s: Sys, s': Sys, h: NodeId, c: Call)
    requires d.Valid() && d.Sizes() && Inv(d, s) && Inv(d, s') && AllPlaced(s) && AllOrdered(s)
    requires StepOf(d, s, s', h, c)
    ensures AllOrdered(s')
  {
    hide NodeInv, Lawful, Deployment.Valid, Deployment.Sizes, NodePlaced, Ordered, After, Deliverable;
    assert NodeInv(d, h, s'.log, s'.nodes[h]);
    assert s.log + [] == s.log;
    CallOrdered(d, s.log, s.nodes[h], h, c, s'.log);
  }

  lemma {:induction false} RunOrdered(d: Deployment, run: seq<Sys>, calls: Calls, i: nat)
    requires d.Valid() && RunOf(d, run, calls) && i < |run|
    ensures AllOrdered(run[i])
  {
    hide Deployment.Valid, Deployment.Sizes, Inv, AllPlaced, StepAt, StepOf, Init, AllOrdered;
    if i == 0 {
      InitOrdered(d, run[0]);
    } else {
      RunOrdered(d, run, calls, i - 1);
      RunPlaced(d, run, calls, i - 1);
      RunPlaced(d, run, calls, i);
      assert TakenAt(d, run, calls, i - 1);
      StepOrdered(d, run[i - 1], run[i], calls[i - 1].0, calls[i - 1].1);
    }
  }

  lemma InitOrdered(d: Deployment, s: Sys)
    requires Init(d, s)
    ensures AllOrdered(s)
  {
  }

  /** Every node commits in order: in every run, at every time, views strictly increase along its committed
    list, over any number of checks, and each block extends all committed before it. */
  lemma CommitsInOrder(d: Deployment, run: seq<Sys>, calls: Calls, i: nat, me: NodeId, j: nat, k: nat)
    requires d.Valid() && RunOf(d, run, calls) && i < |run| && me in d.honest && me in run[i].nodes
    requires j < k < |run[i].nodes[me].committed|
    ensures var a, b := run[i].nodes[me].committed[j].blockHash, run[i].nodes[me].committed[k].blockHash;
            a.Digest? && b.Digest? && a.content.view < b.content.view && Extends(b, a)
  {
    hide Deployment.Valid, IsRun, TakenAt, NodeInv, Lawful, Final, NodeAnchored, Paired, Later, Hashes;
    RunOrdered(d, run, calls, i);
    RunPlaced(d, run, calls, i);
    var s, log := run[i].nodes[me], run[i].log;
    assert Ordered(s) && NodeInv(d, me, log, s);
    CommittedFinal(d, me, log, s, j);
    CommittedFinal(d, me, log, s, k);
    FinalBlocksInViewOrder(d, log, s.committed[j].blockHash, s.committed[k].blockHash);
  }

  /** And nothing is ever rolled back: the committed list only grows at its end. */
  lemma {:induction false} NothingRolledBack(d: Deployment, run: seq<Sys>, calls: Calls, i: nat, j: nat, me: NodeId)
    requires d.Valid() && RunOf(d, run, calls) && i <= j < |run| && me in d.honest
    requires me in run[i].nodes
    ensures me in run[j].nodes && run[i].nodes[me].committed <= run[j].nodes[me].committed
    decreases j
  {
    hide Deployment.Valid, IsRun, After, CastBy, Deliverable;
    if i < j {
      NothingRolledBack(d, run, calls, i, j - 1, me);
      assert TakenAt(d, run, calls, j - 1);
      if calls[j - 1].0 == me {
        Recovery.CallKeepsCommits(ParamsOf(d, me), run[j - 1].nodes[me], calls[j - 1].1);
      }
    }
  }

  lemma CommittedFinal(d: Deployment, me: NodeId, log: Log, s: State, j: nat)
    requires NodeInv(d, me, log, s) && j < |s.committed|
    ensures Final(d, log, s.committed[j].blockHash) && s.committed[j].blockHash.Digest?
  {
  }

  // ------------------------------------------------------------------ gaps

  /** Of the children of one block at most one is certified together with a child of its own. */
  lemma OneContinuedChild(d: Deployment, log: Log, y: Hash, a: Hash, ca: Hash, b: Hash, cb: Hash)
    requires d.Sizes() && Lawful(d, log) && HeadsTriple(d, log, y, a, ca) && HeadsTriple(d, log, y, b, cb)
    ensures a == b
  {
    hide Lawful, Support;
    if ca.content.view == cb.content.view {
      OneCertifiedBlockPerView(d, log, ca, cb);
    } else if ca.content.view < cb.content.view {
      EarlierOnly(d, log, y, a, ca, b, cb);
    } else {
      EarlierOnly(d, log, y, b, cb, a, ca);
    }
  }

  lemma EarlierOnly(d: Deployment, log: Log, y: Hash, a: Hash, ca: Hash, b: Hash, cb: Hash)
    requires d.Sizes() && Lawful(d, log) && HeadsTriple(d, log, y, a, ca) && HeadsTriple(d, log, y, b, cb)
    requires ca.content.view < cb.content.view
    ensures a == b
  {
    hide Lawful, Support;
    LockFreezing(d, log, a, ca, cb);
    assert Extends(b, a);
    if a != b {
      NoCycle(a, y);
    }
  }

  /** The node has just checked for commits. */
  ghost predicate JustChecked(d: Deployment, run: seq<Sys>, calls: Calls, i: nat, me: NodeId) {
    && RunOf(d, run, calls) && 0 < i < |run| && calls[i - 1] == (me, CommitCheck) && me in d.honest && me in run[i].nodes
  }

  lemma NothingLeft(d: Deployment, run: seq<Sys>, calls: Calls, i: nat, me: NodeId)
    requires d.Valid() && JustChecked(d, run, calls, i, me)
    ensures forall y :: !Committable(run[i].nodes[me], y)
  {
    hide Deployment.Valid, Deployment.Sizes, NodeInv, Lawful, NodePlaced, Ordered, IsRun, CommitChecked,
         Committable, CastBy;
    RunOrdered(d, run, calls, i - 1);
    RunPlaced(d, run, calls, i - 1);
    assert TakenAt(d, run, calls, i - 1);
    CheckOrdered(d, run[i - 1].log, run[i - 1].nodes[me], me);
    AfterChecked(ParamsOf(d, me), run[i - 1].nodes[me]);
  }

  lemma AfterChecked(p: Params, s: State)
    requires p.Valid()
    ensures After(p, s, CommitCheck) == CommitChecked(s)
  {
  }

  /** Right after a check the parent of a committed block is committed too exactly if the node has it stored and
    collected the votes for the block itself. Otherwise it never will be, since views only increase. */
  lemma ParentCommittedIff(d: Deployment, run: seq<Sys>, calls: Calls, i: nat, me: NodeId, x: Hash)
    requires d.Valid() && JustChecked(d, run, calls, i, me)
    requires x in run[i].nodes[me].committedHashes && ParentOf(x) != Genesis
    ensures ParentOf(x) in run[i].nodes[me].committedHashes <==>
            ParentOf(x) in run[i].nodes[me].blocks && Collects(d, run, calls, i, me, x)
  {
    hide Deployment.Valid, Deployment.Sizes, IsRun, TakenAt, NodeInv, Lawful, NodePlaced, Ordered, Collects,
         Committable;
    RunOrdered(d, run, calls, i);
    RunPlaced(d, run, calls, i);
    IndexIsHistory(d, run, calls, i, me);
    NothingLeft(d, run, calls, i, me);
    var s, log, y := run[i].nodes[me], run[i].log, ParentOf(x);
    assert Fit(d, me, log, s);
    if y in s.committedHashes {
      CommittedChildIndexed(d, me, log, s, x);
      assert Entry(s.childIndex, y, x);
    } else if Entry(s.childIndex, y, x) {
      ParentCommittable(d, me, log, s, x);
    }
  }

  lemma CommittedChildIndexed(d: Deployment, me: NodeId, log: Log, s: State, x: Hash)
    requires Fit(d, me, log, s) && Ordered(s) && x in s.committedHashes && ParentOf(x) in s.committedHashes
    ensures ParentOf(x) in s.blocks && Entry(s.childIndex, ParentOf(x), x)
  {
    hide Fit, NodeAnchored, Later, InViewOrder;
    Unfit(d, me, log, s);
    hide NodeInv, Lawful, NodePlaced;
    var y := ParentOf(x);
    CommittedTriple(d, me, log, s, x);
    CommittedTriple(d, me, log, s, y);
    OneContinuedChild(d, log, y, s.childIndex[y], s.childIndex[s.childIndex[y]], x, s.childIndex[x]);
  }

  lemma ParentCommittable(d: Deployment, me: NodeId, log: Log, s: State, x: Hash)
    requires Fit(d, me, log, s) && Ordered(s) && x in s.committedHashes && Entry(s.childIndex, ParentOf(x), x)
    requires ParentOf(x) != Genesis && ParentOf(x) !in s.committedHashes
    ensures ParentOf(x) in s.blocks ==> Committable(s, ParentOf(x))
  {
    hide Lawful, NodePlaced, QCsBacked, VotesKept, CommitsFinal, Later, InViewOrder;
    assert s.childIndex[x] in s.blocks && x in s.blocks && s.blocks[x].blockHash == x;
  }

  /** Is the committed list a prefix of one chain, without gaps? */
  predicate Gapless(committed: seq<Proposal>) {
    forall k | 0 <= k < |committed| :: ParentOf(committed[k].blockHash) == Recovery.PrevHash(committed, k)
  }

  /** The exact condition: right after a check a node's committed list has no gaps if and only if it has the
    parents of all committed blocks stored and collected the votes for all committed blocks but a first one on
    genesis itself. */
  lemma GaplessIff(d: Deployment, run: seq<Sys>, calls: Calls, i: nat, me: NodeId)
    requires d.Valid() && JustChecked(d, run, calls, i, me)
    ensures Gapless(run[i].nodes[me].committed) <==>
            forall x | x in run[i].nodes[me].committedHashes && ParentOf(x) != Genesis ::
              ParentOf(x) in run[i].nodes[me].blocks && Collects(d, run, calls, i, me, x)
  {
    hide Deployment.Valid, Deployment.Sizes, IsRun, TakenAt, NodeInv, Lawful, NodePlaced, Ordered, Collects, Gapless;
    RunOrdered(d, run, calls, i);
    RunPlaced(d, run, calls, i);
    var s := run[i].nodes[me];
    forall x | x in s.committedHashes && ParentOf(x) != Genesis
      ensures ParentOf(x) in s.committedHashes <==> ParentOf(x) in s.blocks && Collects(d, run, calls, i, me, x)
    {
      ParentCommittedIff(d, run, calls, i, me, x);
    }
    GaplessMeans(d, me, run[i].log, s);
  }

  /** No gaps means that every parent but genesis is committed. */
  lemma GaplessMeans(d: Deployment, me: NodeId, log: Log, s: State)
    requires Fit(d, me, log, s) && Ordered(s)
    ensures Gapless(s.committed) <==>
            forall x | x in s.committedHashes && ParentOf(x) != Genesis :: ParentOf(x) in s.committedHashes
  {
    hide Fit, NodeAnchored, Later, Paired, InViewOrder, ViewOf, Extends;
    if Gapless(s.committed) {
      forall x | x in s.committedHashes && ParentOf(x) != Genesis ensures ParentOf(x) in s.committedHashes {
        var k :| 0 <= k < |s.committed| && s.committed[k].blockHash == x;
        assert s.committed[k - 1].blockHash in Hashes(s.committed);
      }
    }
    if forall x | x in s.committedHashes && ParentOf(x) != Genesis :: ParentOf(x) in s.committedHashes {
      forall k | 0 <= k < |s.committed| ensures ParentOf(s.committed[k].blockHash) == Recovery.PrevHash(s.committed, k) {
        assert s.committed[k].blockHash in Hashes(s.committed);
        PreviousIsParent(d, me, log, s, k);
      }
    }
  }

  lemma PreviousIsParent(d: Deployment, me: NodeId, log: Log, s: State, k: nat)
    requires Fit(d, me, log, s) && Ordered(s) && k < |s.committed|
    requires ParentOf(s.committed[k].blockHash) == Genesis || ParentOf(s.committed[k].blockHash) in s.committedHashes
    ensures ParentOf(s.committed[k].blockHash) == Recovery.PrevHash(s.committed, k)
  {
    hide Fit, NodeInv, NodeAnchored, Later, Paired, Lawful, NodePlaced, Certified, InViewOrder, ViewOf, Extends;
    Unfit(d, me, log, s);
    var parent := ParentOf(s.committed[k].blockHash);
    if k > 0 {
      ParentExtendsPrevious(d, me, log, s, k);
    }
    if parent != Genesis {
      var j :| 0 <= j < |s.committed| && s.committed[j].blockHash == parent;
      ParentComesBefore(d, me, log, s, j, k);
      if j < k - 1 {
        NotBetween(d, me, log, s, j, k);
        assert false;
      }
    }
  }

  lemma ParentExtendsPrevious(d: Deployment, me: NodeId, log: Log, s: State, k: nat)
    requires d.Sizes() && Lawful(d, log) && NodeInv(d, me, log, s) && InViewOrder(s.committed) && 0 < k < |s.committed|
    ensures Extends(ParentOf(s.committed[k].blockHash), s.committed[k - 1].blockHash)
    ensures s.committed[k - 1].blockHash != Genesis && ParentOf(s.committed[k].blockHash) != Genesis
  {
    hide NodeInv, Lawful, Final;
    var z, x := s.committed[k - 1].blockHash, s.committed[k].blockHash;
    CommittedFinal(d, me, log, s, k - 1);
    CommittedFinal(d, me, log, s, k);
    assert ViewOf(z) < ViewOf(x);
    FinalBlocksInViewOrder(d, log, z, x);
  }

  lemma ParentComesBefore(d: Deployment, me: NodeId, log: Log, s: State, j: nat, k: nat)
    requires d.Sizes() && Lawful(d, log) && NodeInv(d, me, log, s) && InViewOrder(s.committed)
    requires j < |s.committed| && k < |s.committed| && s.committed[j].blockHash == ParentOf(s.committed[k].blockHash)
    ensures j < k
  {
    hide NodeInv, Lawful, Support;
    CommittedFinal(d, me, log, s, j);
    CommittedFinal(d, me, log, s, k);
    FinalIsCertified(d, log, s.committed[k].blockHash);
    ParentCertifiedInSmallerView(d, log, s.committed[k].blockHash);
  }

  lemma NotBetween(d: Deployment, me: NodeId, log: Log, s: State, j: nat, k: nat)
    requires d.Sizes() && Lawful(d, log) && NodeInv(d, me, log, s) && InViewOrder(s.committed) && j < k - 1
    requires k < |s.committed|
    ensures !Extends(s.committed[j].blockHash, s.committed[k - 1].blockHash)
  {
    hide NodeInv, Lawful, Final;
    CommittedFinal(d, me, log, s, j);
    CommittedFinal(d, me, log, s, k - 1);
    assert ViewOf(s.committed[j].blockHash) < ViewOf(s.committed[k - 1].blockHash);
    FinalBlocksInViewOrder(d, log, s.committed[k - 1].blockHash, s.committed[j].blockHash);
  }
}
