/** The consensus node as the object it is in phase5/vap-to.mjs: fields updated in place by its
  methods. Every method is verified against the state functions of NodeState.dfy. */
module ConsensusNode {
  import opened Wrappers
  import opened Endorse
  import opened Blocks
  import opened NodeState
  import opened Ledger
  import VoteMeaning
  import ViewChanges
  import RestartState
  import Quorum

  class Node {
    const p: Params
    var view: int
    var highestQC: Option<QC>
    var votedViews: set<int>
    var blocks: map<Hash, Proposal>
    var blockOrder: seq<Hash>
    var qcByBlockHash: map<Hash, QC>
    var childIndex: map<Hash, Hash>
    var activeProposal: Option<Proposal>
    var lock: Option<Lock>
    var viewChanges: map<NodeId, map<int, ViewChange>>
    var viewChangeOrder: seq<NodeId>
    var newViews: map<int, NewView>
    var committed: seq<Proposal>
    var committedHashes: set<Hash>
    var lastCommittedHash: Hash
    var seenNonces: set<string>
    var expelled: set<NodeId>
    var pendingTxs: seq<Tx>
    var pendingNonces: set<string>
    var ledger: seq<Record>
    var snapshot: Option<Snapshot>

    function Abs(): State
      reads this
    {
      State(view, highestQC, votedViews, blocks, blockOrder, qcByBlockHash, childIndex, activeProposal, lock,
            viewChanges, viewChangeOrder, newViews, committed, committedHashes, lastCommittedHash, seenNonces,
            expelled, pendingTxs, pendingNonces, ledger, snapshot)
    }

    predicate Valid()
      reads this
    {
      p.Valid() && WellFiled(blocks)
    }

    constructor (p: Params)
      requires p.Valid()
      ensures Valid() && this.p == p && Abs() == InitialState
    {
      this.p := p;
      view, highestQC, votedViews := 0, None, {};
      blocks, blockOrder, qcByBlockHash, childIndex := map[], [], map[], map[];
      activeProposal, lock := None, None;
      viewChanges, viewChangeOrder, newViews := map[], [], map[];
      committed, committedHashes, lastCommittedHash := [], {}, Genesis;
      seenNonces, expelled, pendingTxs, pendingNonces := {}, {}, [], {};
      ledger, snapshot := [], None;
    }

    method SubmitTx(tx: Tx) returns (ok: bool)
      requires Valid()
      modifies this
      ensures Valid() && Abs() == Submitted(old(Abs()), tx)
      ensures ok == old(AcceptsTx(Abs(), tx))
    {
      if !tx.Commit? {
        return false;
      }
      var key := NonceKey(tx);
      if key in seenNonces || key in pendingNonces {
        return false;
      }
      pendingTxs := pendingTxs + [tx];
      pendingNonces := pendingNonces + {key};
      ok := true;
    }

    method PutBlock(b: Proposal)
      requires Valid() && b.blockHash == HashBlock(b)
      modifies this
      ensures Valid() && Abs() == StoreBlock(old(Abs()), b)
    {
      if b.blockHash !in blocks {
        blockOrder := blockOrder + [b.blockHash];
      }
      blocks := blocks[b.blockHash := b];
    }

    method Propose(v: int) returns (proposal: Option<Proposal>)
      requires Valid()
      modifies this
      ensures Valid() && Abs() == Proposed(p, old(Abs()), v)
      ensures proposal == if ProposeRefused(p, old(Abs()), v).Some? then None else Some(NewProposal(p, old(Abs()), v))
      ensures proposal.Some? <==> v >= 0 && p.roster[v % p.n] == p.me && old(view) <= v
    {
      if v < 0 || p.LeaderOf(v) != p.me || v < view {
        return None;
      }
      hide SortTxs, NewProposal, Proposed;
      ghost var before := Abs();
      ProposedIs(p, before, v);
      var b := PackProposal(v);
      PutBlock(b);
      Announce(b, v);
      proposal := Some(b);
      assert Abs() == StoreBlock(before, b).(activeProposal := Some(b), view := Max(before.view, v), pendingTxs := [], pendingNonces := {});
    }

    method Announce(b: Proposal, v: int)
      requires Valid()
      modifies this
      ensures Valid() && Abs() == old(Abs()).(activeProposal := Some(b), view := Max(old(view), v))
    {
      activeProposal := Some(b);
      view := Max(view, v);
    }

    /** Packs and empties the mempool. */
    method PackProposal(v: int) returns (b: Proposal)
      requires Valid()
      modifies this
      ensures b == NewProposal(p, old(Abs()), v) && b.blockHash == HashBlock(b)
      ensures Abs() == old(Abs()).(pendingTxs := [], pendingNonces := {})
    {
      b := NewProposal(p, Abs(), v);
      pendingTxs, pendingNonces := [], {};
    }

    /** The ancestry walk, with the cycle guard and the step bound of the source. Both are shown
      never to cut a walk short: the answer is that of the unbounded walk. */
    method IsDescendant(blockHash: Hash, ancestorHash: Hash) returns (r: bool)
      requires Valid()
      ensures r == NodeState.IsDescendant(blocks, blockHash, ancestorHash)
    {
      if ancestorHash == Genesis || blockHash == ancestorHash {
        return true;
      }
      var ancestorView := if ancestorHash in blocks then Some(blocks[ancestorHash].view) else None;
      var cursor, prevView: Option<int> := blockHash, None;
      var steps, maxSteps := 0, |blocks| + 2;
      ghost var visited: set<Hash> := {};
      while steps <= maxSteps
        invariant steps == |visited| <= |blocks|
        invariant visited <= blocks.Keys
        invariant forall h | h in visited :: h.Digest? && prevView.Some? && prevView.value <= h.content.view
        invariant Walks(blocks, blockHash, ancestorHash, ancestorView, None)
              <==> Walks(blocks, cursor, ancestorHash, ancestorView, prevView)
        decreases maxSteps - steps
      {
        if cursor == ancestorHash {
          return true;
        }
        if cursor == Genesis || cursor !in blocks {
          return false;
        }
        var v := blocks[cursor].view;
        if ancestorView.None? || v < ancestorView.value {
          return false;
        }
        if prevView.Some? && v >= prevView.value {
          return false;
        }
        Quorum.SubsetCardinality(visited + {cursor}, blocks.Keys);
        visited := visited + {cursor};
        prevView := Some(v);
        cursor := blocks[cursor].parentHash;
        steps := steps + 1;
      }
      assert false;
    }

    /** First offending transaction of a proposal: wrong lane, nonce already committed, or nonce
      repeated within the proposal. */
    method CheckDoubleSpend(txs: seq<Tx>) returns (refusal: Option<Refusal>)
      ensures refusal == DoubleSpend(seenNonces, txs)
    {
      var seen: set<string> := {};
      for i := 0 to |txs|
        invariant DoubleSpend(seenNonces, txs[..i]).None?
        invariant seen == Nonces(txs[..i])
      {
        var tx := txs[i];
        assert txs[..i + 1][..i] == txs[..i];
        if DoubleSpend(seenNonces, txs[..i + 1]).Some? {
          DoubleSpendPrefix(seenNonces, txs, i + 1);
        }
        if !tx.Commit? {
          return Some(BadTx);
        }
        if NonceKey(tx) in seenNonces {
          return Some(AlreadyCommitted);
        }
        if NonceKey(tx) in seen {
          return Some(DuplicateNonce);
        }
        NoncesAppend(txs[..i], tx);
        assert txs[..i + 1] == txs[..i] + [tx];
        seen := seen + {NonceKey(tx)};
      }
      assert txs[..|txs|] == txs;
      refusal := None;
    }

    method VerifyQC(qc: QC) returns (ok: bool)
      ensures ok <==> QCVerifies(p, Abs(), qc)
    {
      var message := VoteMessage(VoteTarget(qc.view, qc.blockHash, qc.parentHash));
      var kept, ignored, required;
      ok, kept, ignored, required := CollectQC(message, qc.sigs, ActiveRoster(p, Abs()), Some(p.Threshold()));
    }

    method AdoptQC(qc: QC)
      requires Valid()
      modifies this
      ensures Valid() && Abs() == Adopt(old(Abs()), qc)
    {
      highestQC := Some(qc);
      qcByBlockHash := qcByBlockHash[qc.blockHash := qc];
    }

    method Admit(b: Proposal) returns (refusal: Option<Refusal>)
      requires Valid()
      ensures refusal == Admission(p, Abs(), b)
    {
      if b.view < 0 { return Some(InvalidView); }
      if b.leader != p.LeaderOf(b.view) { return Some(LeaderMismatch); }
      if b.leader in expelled { return Some(LeaderExpelled); }
      if b.leader !in p.keys || !Verifies(ProposalMessage(ContentOf(b)), p.keys[b.leader], b.sig) {
        return Some(BadLeaderSignature);
      }
      if b.blockHash != HashBlock(b) { return Some(HashMismatch); }
      if b.view < view { return Some(StaleView); }
      if b.view in votedViews { return Some(AlreadyVoted); }
      if b.justify.Some? {
        if b.justify.value.blockHash != b.parentHash { return Some(JustifyMismatch); }
        var ok := VerifyQC(b.justify.value);
        if !ok { return Some(BadJustify); }
      }
      refusal := None;
    }

    method CheckExtension(b: Proposal) returns (refusal: Option<Refusal>)
      requires Valid()
      ensures refusal == Extension(Abs(), b)
    {
      if highestQC.None? && lastCommittedHash == Genesis {
        if b.parentHash != Genesis { return Some(NotExtendingHighest); }
      } else {
        var reaches := IsDescendant(b.parentHash, if highestQC.Some? then highestQC.value.blockHash else lastCommittedHash);
        if !reaches { return Some(NotExtendingHighest); }
      }
      if b.parentHash != Genesis && b.parentHash !in qcByBlockHash { return Some(ParentNotCertified); }
      if lock.Some? {
        var reaches := IsDescendant(b.parentHash, lock.value.blockHash);
        if !reaches { return Some(NotExtendingLock); }
      }
      refusal := CheckDoubleSpend(b.txs);
    }

    method SafetyRule(b: Proposal) returns (refusal: Option<Refusal>)
      requires Valid()
      modifies this
      ensures Valid() && (Abs(), refusal) == NodeState.SafetyRule(p, old(Abs()), b)
    {
      refusal := Admit(b);
      if refusal.Some? {
        return;
      }
      if b.justify.Some? && (highestQC.None? || b.justify.value.view >= highestQC.value.view) {
        AdoptQC(b.justify.value);
      }
      refusal := CheckExtension(b);
    }

    method Vote(b: Proposal) returns (refusal: Option<Refusal>, vote: Option<Endorsement<Message>>)
      requires Valid()
      modifies this
      ensures Valid() && (Abs(), refusal) == Voted(p, old(Abs()), b)
      ensures vote == if refusal.Some? then None else
                Some(Endorsement(p.me, SignedBy(p.keys[p.me], VoteMessage(VoteTarget(b.view, b.blockHash, b.parentHash)))))
      ensures refusal.None? <==> VoteMeaning.Votable(p, old(Abs()), b)
    {
      hide VoteMeaning.Votable;
      VoteMeaning.VotesIff(p, Abs(), b);
      refusal := SafetyRule(b);
      if refusal.Some? {
        return refusal, None;
      }
      PutBlock(b);
      MarkVoted(b);
      // Lock on vote: the parent of the block voted for.
      lock := LockFor(Abs(), b);
      vote := Some(Endorsement(p.me, SignedBy(p.keys[p.me], VoteMessage(VoteTarget(b.view, b.blockHash, b.parentHash)))));
    }

    method MarkVoted(b: Proposal)
      requires Valid()
      modifies this
      ensures Valid()
      ensures Abs() == old(Abs()).(activeProposal := Some(b), votedViews := old(votedViews) + {b.view}, view := Max(old(view), b.view))
    {
      activeProposal := Some(b);
      votedViews := votedViews + {b.view};
      view := Max(view, b.view);
    }

    method IndexChild(h: Hash)
      requires Valid()
      modifies this
      ensures Valid() && Abs() == IndexCertifiedChild(old(Abs()), h)
    {
      if h in blocks && blocks[h].blockHash in qcByBlockHash {
        childIndex := childIndex[blocks[h].parentHash := blocks[h].blockHash];
      }
    }

    method CollectVotes(votes: seq<Endorsement<Message>>) returns (qc: Option<QC>)
      requires Valid()
      modifies this
      ensures Valid() && Abs() == Collected(p, old(Abs()), votes)
      ensures qc == CollectedQC(p, old(Abs()), votes)
    {
      if activeProposal.None? {
        return None;
      }
      var b := activeProposal.value;
      var message := VoteMessage(VoteTarget(b.view, b.blockHash, b.parentHash));
      var ok, kept, ignored, required := CollectQC(message, votes, ActiveRoster(p, Abs()), Some(p.Threshold()));
      if !ok {
        return None;
      }
      qc := Some(QC(b.view, b.blockHash, b.parentHash, kept, false));
      AdoptQC(qc.value);
      IndexChild(b.blockHash);
    }

    method FindCertifiedChild(h: Hash) returns (child: Option<Proposal>)
      ensures child == CertifiedChild(Abs(), h)
    {
      child := None;
      if h in childIndex && childIndex[h] in blocks {
        child := Some(blocks[childIndex[h]]);
      }
    }

    method CommitBlock(b: Proposal)
      requires Valid()
      modifies this
      ensures Valid() && Abs() == Committed(old(Abs()), b)
    {
      var record := Record(|committed|, Stored(b), lastCommittedHash);
      NoteCommitted(b);
      RegisterNonces(b.txs);
      AppendLine(record);
      WriteSnapshot();
    }

    method NoteCommitted(b: Proposal)
      requires Valid()
      modifies this
      ensures Valid()
      ensures Abs() == old(Abs()).(committed := old(committed) + [b], committedHashes := old(committedHashes) + {b.blockHash},
                                   lastCommittedHash := b.blockHash)
    {
      committed := committed + [b];
      committedHashes := committedHashes + {b.blockHash};
      lastCommittedHash := b.blockHash;
    }

    method RegisterNonces(txs: seq<Tx>)
      requires Valid()
      modifies this
      ensures Valid() && Abs() == old(Abs()).(seenNonces := old(seenNonces) + Nonces(txs))
    {
      seenNonces := seenNonces + Nonces(txs);
    }

    method AppendLine(record: Record)
      requires Valid()
      modifies this
      ensures Valid() && Abs() == old(Abs()).(ledger := old(ledger) + [record])
    {
      ledger := ledger + [record];
    }

    method WriteSnapshot()
      requires Valid() && committed != []
      modifies this
      ensures Valid() && Abs() == old(Abs()).(snapshot := NextSnapshot(old(snapshot), old(committed)))
    {
      if |committed| % SNAPSHOT_EVERY == 0 {
        snapshot := Some(Snapshot(|committed|, committed[|committed| - 1].blockHash, StoredAll(committed)));
      }
    }

    method CollectCandidates() returns (candidates: seq<Proposal>)
      ensures candidates == Candidates(Abs(), blockOrder)
    {
      candidates := [];
      for i := 0 to |blockOrder|
        invariant candidates == Candidates(Abs(), blockOrder[..i])
      {
        var hash := blockOrder[i];
        assert blockOrder[..i + 1][..i] == blockOrder[..i];
        if hash !in blocks || hash in committedHashes || hash !in qcByBlockHash { continue; }
        var child := FindCertifiedChild(hash);
        if child.None? { continue; }
        var grandchild := FindCertifiedChild(child.value.blockHash);
        if grandchild.None? { continue; }
        candidates := candidates + [blocks[hash]];
      }
      assert blockOrder[..|blockOrder|] == blockOrder;
    }

    /** Three-chain commit: everything committable, in view order. */
    method CommitCheck()
      requires Valid()
      modifies this
      ensures Valid() && Abs() == CommitChecked(old(Abs()))
    {
      hide Committed;
      ghost var before := Abs();
      var candidates := CollectCandidates();
      candidates := SortByView(candidates);
      for i := 0 to |candidates|
        invariant Valid() && Abs() == CommitAll(before, candidates[..i])
      {
        assert candidates[..i + 1][..i] == candidates[..i];
        if candidates[i].blockHash !in committedHashes {
          CommitBlock(candidates[i]);
        }
      }
      assert candidates[..|candidates|] == candidates;
    }

    method FileChange(vc: ViewChange)
      requires Valid()
      modifies this
      ensures Valid() && Abs() == FileViewChange(old(Abs()), vc)
    {
      var byView := if vc.nodeId in viewChanges then viewChanges[vc.nodeId] else map[];
      if vc.nodeId !in viewChanges {
        viewChangeOrder := viewChangeOrder + [vc.nodeId];
      }
      viewChanges := viewChanges[vc.nodeId := byView[vc.view := vc]];
    }

    method OnTimeout() returns (vc: ViewChange)
      requires Valid()
      modifies this
      ensures Valid() && Abs() == TimedOut(p, old(Abs()))
      ensures vc == OwnViewChange(p, old(Abs()))
    {
      vc := OwnViewChange(p, Abs());
      view := view + 1;
      FileChange(vc);
    }

    method ReceiveViewChange(vc: ViewChange) returns (ok: bool)
      requires Valid()
      modifies this
      ensures Valid() && Abs() == ReceivedViewChange(p, old(Abs()), vc)
      ensures ok == AcceptsViewChange(p, old(Abs()), vc)
    {
      if vc.nodeId !in p.keys || vc.nodeId in expelled || vc.view < 0
         || !Verifies(ViewChangeTarget(vc), p.keys[vc.nodeId], vc.sig)
      {
        return false;
      }
      if vc.highestQC.Some? {
        var valid := VerifyQC(vc.highestQC.value);
        if !valid {
          return false;
        }
      }
      FileChange(vc);
      ok := true;
    }

    method AggregateNewView(v: int) returns (nv: Option<NewView>)
      requires Valid()
      modifies this
      ensures Valid() && Abs() == Aggregated(p, old(Abs()), v)
      ensures nv == AggregatedNewView(p, old(Abs()), v)
      ensures ViewChanges.FiledWell(old(viewChanges), old(viewChangeOrder)) ==>
                (nv.Some? <==> v >= 0 && ViewChanges.QuorumReady(p, old(Abs()), v))
    {
      AggregationIff(v);
      if v < 0 {
        return None;
      }
      var anchor: Option<QC>, seen := None, 0;
      ghost var s := Abs();
      for i := 0 to |viewChangeOrder|
        invariant Valid() && Abs() == s
        invariant seen == |FiledFor(s, v, viewChangeOrder[..i])|
        invariant anchor == Anchor(FiledFor(s, v, viewChangeOrder[..i]))
      {
        var id := viewChangeOrder[i];
        ghost var filed := FiledFor(s, v, viewChangeOrder[..i]);
        assert viewChangeOrder[..i + 1][..i] == viewChangeOrder[..i];
        if id !in viewChanges || v !in viewChanges[id] { continue; }
        var vc := viewChanges[id][v];
        if vc.nodeId in expelled { continue; }
        AnchorAppend(filed, vc);
        seen := seen + 1;
        if vc.highestQC.Some? && (anchor.None? || vc.highestQC.value.view > anchor.value.view) {
          anchor := vc.highestQC;
        }
      }
      assert viewChangeOrder[..|viewChangeOrder|] == viewChangeOrder;
      if seen < p.Threshold() {
        return None;
      }
      nv := Some(NewView(v, anchor));
      newViews := newViews[v := nv.value];
    }

    lemma AggregationIff(v: int)
      ensures ViewChanges.FiledWell(viewChanges, viewChangeOrder) ==>
                (AggregatedNewView(p, Abs(), v).Some? <==> v >= 0 && ViewChanges.QuorumReady(p, Abs(), v))
    {
      if ViewChanges.FiledWell(viewChanges, viewChangeOrder) {
        ViewChanges.AggregatesIff(p, Abs(), v);
      }
    }

    method AdoptNewView(nv: NewView) returns (ok: bool)
      requires Valid()
      modifies this
      ensures Valid() && Abs() == AdoptedNewView(p, old(Abs()), nv)
      ensures ok == !RejectsAnchor(p, old(Abs()), nv)
    {
      if nv.anchorQC.None? {
        return true;
      }
      var valid := VerifyQC(nv.anchorQC.value);
      if !valid {
        return false;
      }
      if highestQC.Some? && nv.anchorQC.value.view < highestQC.value.view {
        return false;
      }
      AdoptQC(nv.anchorQC.value);
      ok := true;
    }

    method ProposeNewView(v: int) returns (proposal: Option<Proposal>)
      requires Valid()
      modifies this
      ensures Valid() && Abs() == ProposedNewView(p, old(Abs()), v)
      ensures proposal.Some? ==> proposal == activeProposal && view == v
    {
      if v < 0 || p.LeaderOf(v) != p.me {
        return None;
      }
      var nv := AggregateNewView(v);
      if nv.None? {
        return None;
      }
      var ok := AdoptNewView(nv.value);
      if !ok {
        return None;
      }
      proposal := Propose(v);
    }

    // ---------------------------------------------------------------- restart

    method CheckSnapshot(snap: Snapshot, ledgerLength: nat) returns (ok: bool)
      ensures ok == UsableSnapshot(snap, ledgerLength)
    {
      if snap.height <= 0 || |snap.blocks| != snap.height || snap.height > ledgerLength {
        return false;
      }
      for i := 0 to |snap.blocks|
        invariant forall j | 0 <= j < i :: SnapshotLink(snap.blocks, j)
      {
        var expectParent := if i == 0 then Genesis else snap.blocks[i - 1].blockHash;
        if snap.blocks[i].parentHash != expectParent || snap.blocks[i].blockHash != HashBlock(snap.blocks[i]) {
          assert !SnapshotLink(snap.blocks, i);
          return false;
        }
        assert SnapshotLink(snap.blocks, i);
      }
      ok := snap.lastCommittedHash == snap.blocks[|snap.blocks| - 1].blockHash;
    }

    /** Reads the committed prefix back and says where the chain breaks, if it does. */
    method ReplayLedger(lines: seq<Line>, snap: Option<Snapshot>) returns (recovered: seq<Proposal>, truncatedAt: Option<nat>)
      ensures recovered == Recovered(p, lines, snap)
      ensures truncatedAt == if |recovered| < |Values(lines)| then Some(|recovered|) else None
    {
      var values, prevHash := Values(lines), Genesis;
      recovered, truncatedAt := [], None;
      if snap.Some? {
        var ok := CheckSnapshot(snap.value, |values|);
        if ok {
          recovered, prevHash := snap.value.blocks, snap.value.lastCommittedHash;
        }
      }
      for i := |recovered| to |values|
        invariant |recovered| == i && Replay(p, values, recovered, prevHash) == Recovered(p, lines, snap)
      {
        if !GoodRecord(p, values[i], i, prevHash) {
          truncatedAt := Some(i);
          break;
        }
        recovered, prevHash := recovered + [values[i].record.block], values[i].record.block.blockHash;
      }
    }

    method ClearVotes()
      requires Valid()
      modifies this
      ensures Valid()
      ensures Abs() == old(Abs()).(votedViews := {}, activeProposal := None, lock := None)
    {
      votedViews, activeProposal, lock := {}, None, None;
    }

    method ClearMempool()
      requires Valid()
      modifies this
      ensures Valid() && Abs() == old(Abs()).(pendingTxs := [], pendingNonces := {})
    {
      pendingTxs, pendingNonces := [], {};
    }

    method ClearBlocks()
      requires Valid()
      modifies this
      ensures Valid() && Abs() == old(Abs()).(blocks := map[], blockOrder := [])
    {
      blocks, blockOrder := map[], [];
    }

    method ClearCertificates()
      requires Valid()
      modifies this
      ensures Valid()
      ensures Abs() == old(Abs()).(highestQC := None, qcByBlockHash := map[], childIndex := map[])
    {
      highestQC, qcByBlockHash, childIndex := None, map[], map[];
    }

    method ClearCommitted()
      requires Valid()
      modifies this
      ensures Valid()
      ensures Abs() == old(Abs()).(committed := [], committedHashes := {}, lastCommittedHash := Genesis, seenNonces := {})
    {
      ClearHistory();
      lastCommittedHash, seenNonces := Genesis, {};
    }

    method ClearHistory()
      requires Valid()
      modifies this
      ensures Valid() && Abs() == old(Abs()).(committed := [], committedHashes := {})
    {
      committed, committedHashes := [], {};
    }

    method Reinstate(b: Proposal)
      requires Valid() && b.blockHash == HashBlock(b)
      modifies this
      ensures Valid() && Abs() == Reinstated(old(Abs()), b)
    {
      PutBlock(b);
      NoteCommitted(b);
      AdoptQC(RestoredQC(b));
      IndexChild(b.blockHash);
      RegisterNonces(b.txs);
    }

    /** Rebuild everything from the ledger. Votes cast, the lock and the mempool are forgotten;
      expulsions and filed view changes are kept. Returns the file as it is left on disk. */
    method Restore(lines: seq<Line>, snap: Option<Snapshot>) returns (file: seq<Line>, truncatedAt: Option<nat>)
      requires Valid()
      modifies this
      ensures Valid() && Abs() == Restored(p, old(Abs()), lines, snap)
      ensures var r := Recovered(p, lines, snap); view == if r == [] then old(view) else r[|r| - 1].view + 1
      ensures file == Compacted(lines, |Recovered(p, lines, snap)|)
      ensures truncatedAt == if |Recovered(p, lines, snap)| < |Values(lines)| then Some(|Recovered(p, lines, snap)|) else None
    {
      hide Recovered, Values, Compacted, ReinstatedAll, Cleared, RestartState.BlocksOf, RestartState.ChildrenOf;
      RestartState.ResumesIn(p, Abs(), lines, snap);
      var recovered;
      recovered, truncatedAt := ReplayLedger(lines, snap);
      file := Compacted(lines, |recovered|);
      RecoveredAreHashed(p, lines, snap);
      ClearAll();
      ReinstateBlocks(recovered);
      if recovered != [] {
        view := recovered[|recovered| - 1].view + 1;
      }
    }

    method ReinstateBlocks(recovered: seq<Proposal>)
      requires Valid() && forall b | b in recovered :: b.blockHash == HashBlock(b)
      modifies this
      ensures Valid() && Abs() == ReinstatedAll(old(Abs()), recovered)
    {
      for i := 0 to |recovered|
        invariant Valid() && Abs() == ReinstatedAll(old(Abs()), recovered[..i])
      {
        assert recovered[..i + 1][..i] == recovered[..i];
        Reinstate(recovered[i]);
      }
      assert recovered[..|recovered|] == recovered;
    }

    method ClearAll()
      requires Valid()
      modifies this
      ensures Valid() && Abs() == Cleared(old(Abs()))
    {
      ClearCommitted();
      ClearVotes();
      ClearMempool();
      ClearBlocks();
      ClearCertificates();
    }

    method Expel(id: NodeId)
      requires Valid()
      modifies this
      ensures Valid() && Abs() == Expelled(old(Abs()), id)
    {
      expelled := expelled + {id};
    }
  }

  lemma {:induction false} ReplayedAreHashed(p: Params, values: seq<Line>, blocks: seq<Proposal>, prev: Hash)
    requires forall i | 0 <= i < |blocks| :: blocks[i].blockHash == HashBlock(blocks[i])
    ensures forall b | b in Replay(p, values, blocks, prev) :: b.blockHash == HashBlock(b)
    decreases |values| - |blocks|
  {
    if |blocks| < |values| && GoodRecord(p, values[|blocks|], |blocks|, prev) {
      var b := values[|blocks|].record.block;
      ReplayedAreHashed(p, values, blocks + [b], b.blockHash);
    }
  }

  lemma RecoveredAreHashed(p: Params, lines: seq<Line>, snap: Option<Snapshot>)
    ensures forall b | b in Recovered(p, lines, snap) :: b.blockHash == HashBlock(b)
  {
    var values := Values(lines);
    if snap.Some? && UsableSnapshot(snap.value, |values|) {
      forall i | 0 <= i < |snap.value.blocks| ensures snap.value.blocks[i].blockHash == HashBlock(snap.value.blocks[i]) {
        assert SnapshotLink(snap.value.blocks, i);
      }
      ReplayedAreHashed(p, values, snap.value.blocks, snap.value.lastCommittedHash);
    } else {
      ReplayedAreHashed(p, values, [], Genesis);
    }
  }

  lemma {:induction false} DoubleSpendPrefix(seenNonces: set<string>, txs: seq<Tx>, k: nat)
    requires k <= |txs| && DoubleSpend(seenNonces, txs[..k]).Some?
    ensures DoubleSpend(seenNonces, txs) == DoubleSpend(seenNonces, txs[..k])
    decreases |txs|
  {
    if k == |txs| {
      assert txs[..k] == txs;
    } else {
      var init := txs[..|txs| - 1];
      assert init[..k] == txs[..k];
      DoubleSpendPrefix(seenNonces, init, k);
    }
  }

  lemma NoncesAppend(txs: seq<Tx>, tx: Tx)
    ensures Nonces(txs + [tx]) == Nonces(txs) + if tx.Commit? then {NonceKey(tx)} else {}
  {
    var all := txs + [tx];
    assert all[|txs|] == tx;
    assert forall i | 0 <= i < |txs| :: all[i] == txs[i];
  }

  lemma AnchorAppend(vcs: seq<ViewChange>, vc: ViewChange)
    ensures Anchor(vcs + [vc]) ==
      if vc.highestQC.Some? && (Anchor(vcs).None? || vc.highestQC.value.view > Anchor(vcs).value.view)
      then vc.highestQC else Anchor(vcs)
  {
    assert (vcs + [vc])[..|vcs|] == vcs;
  }
}
