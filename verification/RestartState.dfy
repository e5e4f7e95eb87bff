/** What a restart reads and the state it resumes in (phase5/vap-to.mjs: restore), told without the functions
  that compute it. */
module RestartState {
  import opened Wrappers
  import opened Endorse
  import opened Blocks
  import opened NodeState
  import opened Ledger
  import opened Recovery
  import VoteMeaning
  import ViewChanges
  import Commit

  // ------------------------------------------------------------------ what is read

  /** Reading goes line by line: blank and torn lines are skipped, anything that is JSON counts. */
  lemma ValuesAre(a: seq<Line>, b: seq<Line>, r: Record)
    ensures Values([]) == [] && Values(a + b) == Values(a) + Values(b)
    ensures Values([Blank]) == [] && Values([Torn]) == []
    ensures Values([NoRecord]) == [NoRecord] && Values([Written(r)]) == [Written(r)]
  {
    ValuesConcat(a, b);
    ValuesPush([], Blank);
    ValuesPush([], Torn);
    ValuesPush([], NoRecord);
    ValuesPush([], Written(r));
    assert forall line: Line :: [] + [line] == [line];
  }

  /** The line is the record of this height, names its predecessor, and holds a block that is hashed and
    signed right. */
  predicate Continues(p: Params, v: Line, height: nat, prev: Hash) {
    && v.Written? && v.record.height == height && v.record.prevHash == prev
    && var b := v.record.block;
       var content := Content(b.view, b.leader, b.parentHash, b.txs);
       b.blockHash == Digest(content) && b.leader in p.keys && b.sig == SignedBy(p.keys[b.leader], ProposalMessage(content))
  }

  /** From these blocks on, the records that continue the chain up to the first that does not. */
  predicate ReadsTo(p: Params, values: seq<Line>, from: nat, r: seq<Proposal>) {
    && from <= |r|
    && (forall i | from <= i < |r| ::
        i < |values| && Continues(p, values[i], i, PrevHash(r, i)) && values[i].record.block == r[i])
    && (|r| < |values| ==> !Continues(p, values[|r|], |r|, PrevHash(r, |r|)))
  }

  /** Block i is hashed right and the child of the one before. */
  predicate LinkedRight(blocks: seq<Proposal>, i: nat)
    requires i < |blocks|
  {
    var b := blocks[i];
    b.parentHash == PrevHash(blocks, i) && b.blockHash == Digest(Content(b.view, b.leader, b.parentHash, b.txs))
  }

  /** As many blocks as it says, not more than the file has records, each linked right, the last being the
    one it names. */
  predicate GoodSnapshot(snap: Snapshot, records: nat) {
    && 0 < snap.height <= records && |snap.blocks| == snap.height
    && (forall i | 0 <= i < |snap.blocks| :: LinkedRight(snap.blocks, i))
    && snap.lastCommittedHash == snap.blocks[|snap.blocks| - 1].blockHash
  }

  lemma {:induction false} ReplayReads(p: Params, values: seq<Line>, blocks: seq<Proposal>, prev: Hash)
    requires prev == PrevHash(blocks, |blocks|)
    ensures var r := Replay(p, values, blocks, prev); blocks <= r && ReadsTo(p, values, |blocks|, r)
    decreases |values| - |blocks|
  {
    if |blocks| < |values| && GoodRecord(p, values[|blocks|], |blocks|, prev) {
      var more := blocks + [values[|blocks|].record.block];
      ReplayReads(p, values, more, more[|blocks|].blockHash);
      var r := Replay(p, values, more, more[|blocks|].blockHash);
      assert r[|blocks|] == more[|blocks|];
      assert PrevHash(r, |blocks|) == PrevHash(blocks, |blocks|);
    }
  }

  /** A restart starts from the blocks of the snapshot if that is good, from none otherwise, and takes up the
    records that continue them, up to the first that does not. */
  lemma RecoveredIs(p: Params, lines: seq<Line>, snap: Option<Snapshot>)
    ensures var values, r := Values(lines), Recovered(p, lines, snap);
      if snap.Some? && GoodSnapshot(snap.value, |values|) then snap.value.blocks <= r && ReadsTo(p, values, snap.value.height, r)
      else ReadsTo(p, values, 0, r)
  {
    hide ReadsTo, Replay;
    var values := Values(lines);
    if snap.Some? {
      assert UsableSnapshot(snap.value, |values|) <==> GoodSnapshot(snap.value, |values|) by {
        SnapshotIff(snap.value, |values|);
      }
      if UsableSnapshot(snap.value, |values|) {
        ReplayReads(p, values, snap.value.blocks, snap.value.lastCommittedHash);
      }
    }
    ReplayReads(p, values, [], Genesis);
  }

  lemma SnapshotIff(snap: Snapshot, records: nat)
    ensures UsableSnapshot(snap, records) <==> GoodSnapshot(snap, records)
  {
    forall i | 0 <= i < |snap.blocks| ensures SnapshotLink(snap.blocks, i) <==> LinkedRight(snap.blocks, i) {
      LinkIff(snap.blocks, i);
    }
    hide SnapshotLink, LinkedRight;
  }

  lemma LinkIff(blocks: seq<Proposal>, i: nat)
    requires i < |blocks|
    ensures SnapshotLink(blocks, i) <==> LinkedRight(blocks, i)
  {
  }

  // ------------------------------------------------------------------ the state resumed in

  /** Block i is the last of those with its hash. */
  predicate LastWith(blocks: seq<Proposal>, i: nat)
    requires i < |blocks|
  {
    forall j | i < j < |blocks| :: blocks[j].blockHash != blocks[i].blockHash
  }

  predicate LastChild(blocks: seq<Proposal>, i: nat)
    requires i < |blocks|
  {
    forall j | i < j < |blocks| :: blocks[j].parentHash != blocks[i].parentHash
  }

  /** The stand-in for the certificate of a committed block. */
  predicate StandsFor(qc: QC, b: Proposal) {
    qc.view == b.view && qc.blockHash == b.blockHash && qc.parentHash == b.parentHash && qc.sigs == [] && qc.restored
  }

  predicate BlocksOf(blocks: seq<Proposal>, stored: map<Hash, Proposal>, certified: map<Hash, QC>) {
    && stored.Keys == Commit.Hashes(blocks) && certified.Keys == Commit.Hashes(blocks)
    && (forall i | 0 <= i < |blocks| && LastWith(blocks, i) ::
          var h := blocks[i].blockHash;
          h in stored && h in certified && stored[h] == blocks[i] && StandsFor(certified[h], blocks[i]))
  }

  predicate ChildrenOf(blocks: seq<Proposal>, index: map<Hash, Hash>) {
    && (forall h :: h in index ==> exists i :: 0 <= i < |blocks| && blocks[i].parentHash == h)
    && (forall i | 0 <= i < |blocks| && LastChild(blocks, i) ::
          blocks[i].parentHash in index && index[blocks[i].parentHash] == blocks[i].blockHash)
  }

  lemma LastMore(blocks: seq<Proposal>, b: Proposal)
    ensures var more := blocks + [b];
      && LastWith(more, |blocks|) && LastChild(more, |blocks|)
      && (forall i | 0 <= i < |blocks| :: LastWith(more, i) <==> LastWith(blocks, i) && blocks[i].blockHash != b.blockHash)
      && (forall i | 0 <= i < |blocks| ::
          LastChild(more, i) <==> LastChild(blocks, i) && blocks[i].parentHash != b.parentHash)
  {
    var more := blocks + [b];
    assert more[|blocks|] == b && forall i | 0 <= i < |blocks| :: more[i] == blocks[i];
  }

  lemma ReinstatedBlocks(s: State, blocks: seq<Proposal>, b: Proposal)
    requires BlocksOf(blocks, s.blocks, s.qcByBlockHash)
    ensures var t := Reinstated(s, b); BlocksOf(blocks + [b], t.blocks, t.qcByBlockHash)
  {
    hide Nonces, BlocksOf;
    var t := Reinstated(s, b);
    assert t.blocks == s.blocks[b.blockHash := b] && t.qcByBlockHash == s.qcByBlockHash[b.blockHash := RestoredQC(b)];
    BlocksMore(blocks, s.blocks, s.qcByBlockHash, b, RestoredQC(b));
  }

  lemma BlocksMore(blocks: seq<Proposal>, stored: map<Hash, Proposal>, certified: map<Hash, QC>, b: Proposal, qc: QC)
    requires BlocksOf(blocks, stored, certified) && StandsFor(qc, b)
    ensures BlocksOf(blocks + [b], stored[b.blockHash := b], certified[b.blockHash := qc])
  {
    hide LastWith, StandsFor, Commit.Hashes;
    LastMore(blocks, b);
    Commit.HashesAppend(blocks, b);
    var more := blocks + [b];
    forall i | 0 <= i < |more| && LastWith(more, i)
      ensures var h := more[i].blockHash; h in certified[b.blockHash := qc] && stored[b.blockHash := b][h] == more[i]
      ensures StandsFor(certified[b.blockHash := qc][more[i].blockHash], more[i])
    {
      if i < |blocks| {
        assert more[i] == blocks[i] && LastWith(blocks, i);
      }
    }
  }

  lemma ReinstatedChildren(s: State, blocks: seq<Proposal>, b: Proposal)
    requires ChildrenOf(blocks, s.childIndex)
    ensures var t := Reinstated(s, b); ChildrenOf(blocks + [b], t.childIndex)
  {
    hide Nonces, ChildrenOf;
    assert Reinstated(s, b).childIndex == s.childIndex[b.parentHash := b.blockHash];
    ChildrenMore(blocks, s.childIndex, b);
  }

  lemma ChildrenMore(blocks: seq<Proposal>, index: map<Hash, Hash>, b: Proposal)
    requires ChildrenOf(blocks, index)
    ensures ChildrenOf(blocks + [b], index[b.parentHash := b.blockHash])
  {
    hide LastChild;
    LastMore(blocks, b);
    var more, after := blocks + [b], index[b.parentHash := b.blockHash];
    forall h | h in after ensures exists i :: 0 <= i < |more| && more[i].parentHash == h {
      if h == b.parentHash {
        assert more[|blocks|].parentHash == h;
      } else {
        var i :| 0 <= i < |blocks| && blocks[i].parentHash == h;
        assert more[i].parentHash == h;
      }
    }
  }

  lemma {:induction false} ReinstatedAllIs(s: State, blocks: seq<Proposal>)
    requires s.blocks == map[] && s.qcByBlockHash == map[] && s.childIndex == map[] && s.highestQC == None
    ensures var t := ReinstatedAll(s, blocks);
      && BlocksOf(blocks, t.blocks, t.qcByBlockHash) && ChildrenOf(blocks, t.childIndex)
      && (if blocks == [] then t.highestQC.None? else t.highestQC.Some? && StandsFor(t.highestQC.value, blocks[|blocks| - 1]))
      && t == s.(blocks := t.blocks, blockOrder := t.blockOrder,
                 qcByBlockHash := t.qcByBlockHash, childIndex := t.childIndex,
                 highestQC := t.highestQC, committed := t.committed, committedHashes := t.committedHashes,
                 lastCommittedHash := t.lastCommittedHash, seenNonces := t.seenNonces)
  {
    if blocks != [] {
      hide BlocksOf, ChildrenOf, Nonces;
      var init, b := blocks[..|blocks| - 1], blocks[|blocks| - 1];
      assert blocks == init + [b];
      ReinstatedAllIs(s, init);
      ReinstatedBlocks(ReinstatedAll(s, init), init, b);
      ReinstatedChildren(ReinstatedAll(s, init), init, b);
    }
  }

  /** A node without votes, lock, mempool and open proposal, that knows the same expulsions and view changes. */
  predicate Forgot(s: State, t: State) {
    && t.votedViews == {} && t.lock == None && t.activeProposal == None && t.pendingTxs == [] && t.pendingNonces == {}
    && t.expelled == s.expelled && t.viewChanges == s.viewChanges && t.viewChangeOrder == s.viewChangeOrder
    && t.newViews == s.newViews
  }

  /** The state a restart resumes in, for any file and snapshot: one view above the last block read back, or
    at its old view if there is none; that block highest certified and last committed; and exactly the
    blocks read back stored, certified and filed under their parents. */
  lemma ResumesIn(p: Params, s: State, lines: seq<Line>, snap: Option<Snapshot>)
    ensures var t, r := Restored(p, s, lines, snap), Recovered(p, lines, snap);
      && Forgot(s, t) && t.committed == r
      && t.committedHashes == Commit.Hashes(r) && t.seenNonces == AllNonces(r) && t.lastCommittedHash == PrevHash(r, |r|)
      && BlocksOf(r, t.blocks, t.qcByBlockHash) && ChildrenOf(r, t.childIndex)
      && (if r == [] then t.view == s.view && t.highestQC == None
          else t.view == r[|r| - 1].view + 1 && t.highestQC.Some? && StandsFor(t.highestQC.value, r[|r| - 1]))
  {
    hide BlocksOf, ChildrenOf, Recovered;
    var r := Recovered(p, lines, snap);
    ReinstatedAllIs(Cleared(s), r);
    NothingBooked(Cleared(s));
    ReinstatedAllBooks(Cleared(s), r);
  }

  lemma NothingBooked(s: State)
    requires s.committed == [] && s.committedHashes == {} && s.lastCommittedHash == Genesis && s.seenNonces == {}
    ensures Bookkeeping(s)
  {
  }

  // ------------------------------------------------------------------ what it may do next

  /** After a restart that reads back some block, every proposal of a view up to that block's is refused,
    although the votes cast in these views are forgotten. */
  lemma RefusesOldViews(p: Params, s: State, lines: seq<Line>, snap: Option<Snapshot>, b: Proposal)
    requires p.Valid() && Recovered(p, lines, snap) != []
    requires var r := Recovered(p, lines, snap); b.view <= r[|r| - 1].view
    ensures Voted(p, Restored(p, s, lines, snap), b).1.Some?
  {
    hide Recovered, Restored, BlocksOf, ChildrenOf, Voted;
    ResumesIn(p, s, lines, snap);
    VoteMeaning.VotesIff(p, Restored(p, s, lines, snap), b);
  }

  /** And what it proposes next stands on that block and carries no certificate, since the one it holds has
    no signatures; it proposes exactly in views above that block's which it leads. */
  lemma NextProposalAfterRestart(p: Params, s: State, lines: seq<Line>, snap: Option<Snapshot>, v: int)
    requires p.Valid() && Recovered(p, lines, snap) != []
    ensures var t, r := Restored(p, s, lines, snap), Recovered(p, lines, snap);
      var last, after := r[|r| - 1], Proposed(p, t, v);
      if v >= 0 && last.view < v && p.roster[v % p.n] == p.me then
        && after.activeProposal.Some? && after.view == v
        && after.activeProposal.value.parentHash == last.blockHash && after.activeProposal.value.justify == None
        && after.activeProposal.value.txs == []
      else after == t
  {
    hide Recovered, Restored, BlocksOf, ChildrenOf, Proposed;
    ResumesIn(p, s, lines, snap);
    ViewChanges.ProposesIff(p, Restored(p, s, lines, snap), v);
  }

  /** After a restart on intact files, in any life of the node, the blocks certified and those stored are
    exactly those committed before, and each is the child on record for its parent unless a later one is. */
  lemma RestartCertifiesCommits(p: Params, states: seq<State>, events: seq<Event>, i: nat, snap: Option<Snapshot>)
    requires p.Valid() && NodeLife(p, states, events) && i < |states|
    requires snap == None || snap == states[i].snapshot
    ensures var s, t := states[i], Restored(p, Reopened(states[i]), FileOf(states[i].ledger), snap);
      && t.qcByBlockHash.Keys == s.committedHashes && t.blocks.Keys == s.committedHashes
      && ChildrenOf(s.committed, t.childIndex)
      && t.view == (if s.committed == [] then 0 else s.committed[|s.committed| - 1].view + 1)
  {
    hide LedgerInv, Restored, FileOf, Recovered, BlocksOf, ChildrenOf, NodeLife, Commit.Hashes;
    LifeKeepsLedger(p, states, events, i);
    var s := states[i];
    CommittedBooks(p, s);
    RecoveredIsCommitted(p, s, snap);
    ResumesIn(p, Reopened(s), FileOf(s.ledger), snap);
    StoredBooks(s.committed);
    var t := Restored(p, Reopened(s), FileOf(s.ledger), snap);
    CertifiedKeys(StoredAll(s.committed), t.blocks, t.qcByBlockHash);
    ChildrenStored(s.committed, t.childIndex);
  }

  lemma CommittedBooks(p: Params, s: State)
    requires LedgerInv(p, s)
    ensures s.committedHashes == Commit.Hashes(s.committed)
  {
  }

  lemma CertifiedKeys(blocks: seq<Proposal>, stored: map<Hash, Proposal>, certified: map<Hash, QC>)
    requires BlocksOf(blocks, stored, certified)
    ensures stored.Keys == Commit.Hashes(blocks) && certified.Keys == Commit.Hashes(blocks)
  {
  }

  lemma ChildrenStored(committed: seq<Proposal>, index: map<Hash, Hash>)
    requires ChildrenOf(StoredAll(committed), index)
    ensures ChildrenOf(committed, index)
  {
    var r := StoredAll(committed);
    assert forall i | 0 <= i < |committed| ::
        r[i].parentHash == committed[i].parentHash && r[i].blockHash == committed[i].blockHash;
    hide StoredAll;
    forall i | 0 <= i < |committed| ensures LastChild(r, i) <==> LastChild(committed, i) {
    }
    forall h | h in index ensures exists i :: 0 <= i < |committed| && committed[i].parentHash == h {
      var i :| 0 <= i < |r| && r[i].parentHash == h;
      assert committed[i].parentHash == h;
    }
  }
}
