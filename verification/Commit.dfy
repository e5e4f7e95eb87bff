/** What one commit check commits (phase5/vap-to.mjs, commitCheck): the indexed scan against the full
  scan for certified triples, and the order of the blocks committed together. */
module Commit {
  import opened Wrappers
  import opened Endorse
  import opened Blocks
  import opened NodeState
  import opened VoteLog
  import opened Protocol

  /** h heads a stored, certified, parent-linked triple, found by looking at every block. */
  ghost predicate FullScan(s: State, h: Hash) {
    && h in s.blocks && h !in s.committedHashes && h in s.qcByBlockHash
    && exists c, g :: CertifiedChildOf(s, h, c) && CertifiedChildOf(s, c, g)
  }

  predicate CertifiedChildOf(s: State, h: Hash, c: Hash) {
    c in s.blocks && c in s.qcByBlockHash && c.Digest? && c.content.parentHash == h
  }

  /** Every stored certified block is the one its parent's index entry names. */
  ghost predicate IndexComplete(s: State) {
    forall c | c in s.blocks && c in s.qcByBlockHash && c.Digest? ::
      c.content.parentHash in s.childIndex && s.childIndex[c.content.parentHash] == c
  }

  function ParentOf(h: Hash): Hash {
    if h.Digest? then h.content.parentHash else Genesis
  }

  /** The index only ever leads to real triples; when it is complete it misses none. ChildIndex.dfy says
    when it is. */
  lemma IndexedScanAgainstFullScan(d: Deployment, me: NodeId, log: Log, s: State, h: Hash)
    requires NodeInv(d, me, log, s)
    ensures Committable(s, h) ==> FullScan(s, h)
    ensures IndexComplete(s) ==> (Committable(s, h) <==> FullScan(s, h))
  {
    if Committable(s, h) {
      var c := s.childIndex[h];
      assert CertifiedChildOf(s, h, c) && CertifiedChildOf(s, c, s.childIndex[c]);
    }
    if IndexComplete(s) && FullScan(s, h) {
      var c, g :| CertifiedChildOf(s, h, c) && CertifiedChildOf(s, c, g);
      assert s.childIndex[h] == c && s.childIndex[c] == g;
    }
  }

  /** Without a complete index the commit check can miss a triple. A node that learns every
    certificate from proposals and never collects votes itself files no children, so it holds
    certified triples and commits nothing. */
  lemma UnindexedNodeCommitsNothing(s: State)
    requires s.childIndex == map[]
    ensures CommitChecked(s) == s
  {
    NoCandidates(s, s.blockOrder);
  }

  lemma {:induction false} NoCandidates(s: State, order: seq<Hash>)
    requires s.childIndex == map[]
    ensures Candidates(s, order) == []
  {
    if order != [] {
      NoCandidates(s, order[..|order| - 1]);
    }
  }

  /** Adopting certificates, voting, proposing and changing views file no child and commit nothing. */
  lemma OnlyCollectingIndexes(p: Params, s: State, c: Call)
    requires p.Valid() && !c.CollectVotes?
    ensures After(p, s, c).childIndex == s.childIndex
    ensures !c.CommitCheck? ==> After(p, s, c).committed == s.committed
  {
    hide Proposed, NodeState.Voted, CommitChecked, TimedOut, ReceivedViewChange, Aggregated, AdoptedNewView,
         ProposedNewView, Submitted;
    match c
    case Propose(view) => ProposedFrame(p, s, view);
    case CommitCheck => CommitCheckedFrame(s);
    case VoteOn(b) => VotedFrame(p, s, b);
    case ProposeNewView(view) => ProposedNewViewFrame(p, s, view);
    case _ => ViewChangingFrame(p, s, c);
  }

  lemma ViewChangingFrame(p: Params, s: State, c: Call)
    requires p.Valid()
    requires (c.Timeout? || c.ReceiveViewChange? || c.AggregateNewView? || c.AdoptNewView? || c.Expel? || c.Submit?)
    ensures After(p, s, c).childIndex == s.childIndex && After(p, s, c).committed == s.committed
  {
    hide OwnViewChange, AcceptsViewChange, AggregatedNewView, RejectsAnchor, AcceptsTx, FileViewChange;
    match c
    case Timeout => FiledFrame(s, OwnViewChange(p, s));
    case ReceiveViewChange(vc) => FiledFrame(s, vc);
    case _ =>
  }

  lemma FiledFrame(s: State, vc: ViewChange)
    ensures FileViewChange(s, vc).childIndex == s.childIndex && FileViewChange(s, vc).committed == s.committed
  {
  }

  lemma CommitCheckedFrame(s: State)
    ensures CommitChecked(s).childIndex == s.childIndex
  {
    CommitAllFrame(s, SortByView(Candidates(s, s.blockOrder)));
  }

  lemma VotedFrame(p: Params, s: State, b: Proposal)
    requires p.Valid()
    ensures Voted(p, s, b).0.childIndex == s.childIndex && Voted(p, s, b).0.committed == s.committed
  {
    var s1 := AdoptJustify(s, b);
    assert s1.childIndex == s.childIndex && s1.committed == s.committed;
    assert CastVote(s1, b).childIndex == s1.childIndex && CastVote(s1, b).committed == s1.committed;
    VotedCases(p, s, b);
  }

  lemma ProposedFrame(p: Params, s: State, view: int)
    requires p.Valid()
    ensures Proposed(p, s, view).childIndex == s.childIndex && Proposed(p, s, view).committed == s.committed
  {
  }

  lemma ProposedNewViewFrame(p: Params, s: State, view: int)
    requires p.Valid()
    ensures ProposedNewView(p, s, view).childIndex == s.childIndex
    ensures ProposedNewView(p, s, view).committed == s.committed
  {
    var nv := AggregatedNewView(p, s, view);
    if nv.Some? {
      ProposedFrame(p, AdoptedNewView(p, Aggregated(p, s, view), nv.value), view);
    }
  }

  lemma {:induction false} CommitAllFrame(s: State, bs: seq<Proposal>)
    ensures CommitAll(s, bs).childIndex == s.childIndex && CommitAll(s, bs).blocks == s.blocks
    ensures CommitAll(s, bs).qcByBlockHash == s.qcByBlockHash
  {
    if bs != [] {
      CommitAllFrame(s, bs[..|bs| - 1]);
    }
  }

  ghost predicate TakenAt(d: Deployment, run: seq<Sys>, calls: seq<(NodeId, Call)>, k: nat)
    requires k < |calls| && |run| == |calls| + 1
  {
    StepOf(d, run[k], run[k + 1], calls[k].0, calls[k].1)
  }

  /** Hence a node that never collects votes commits nothing in any run, however many blocks the
    others commit. */
  lemma {:induction false} NodeThatNeverCollectsCommitsNothing(d: Deployment, run: seq<Sys>, calls: seq<(NodeId,
      Call)>, i: nat, me: NodeId)
    requires d.Valid() && IsRun(d, run) && |calls| == |run| - 1 && me in d.honest
    requires forall k | 0 <= k < |calls| :: TakenAt(d, run, calls, k)
    requires forall k | 0 <= k < |calls| && calls[k].0 == me :: !calls[k].1.CollectVotes?
    requires i < |run|
    ensures me in run[i].nodes && run[i].nodes[me].committed == [] && run[i].nodes[me].childIndex == map[]
  {
    hide StepOf, Step, Deployment.Valid;
    if i > 0 {
      NodeThatNeverCollectsCommitsNothing(d, run, calls, i - 1, me);
      assert TakenAt(d, run, calls, i - 1);
      StillNothing(d, run[i - 1], run[i], calls[i - 1].0, calls[i - 1].1, me);
    }
  }

  lemma StillNothing(d: Deployment, s: Sys, s': Sys, h: NodeId, c: Call, me: NodeId)
    requires d.Valid() && StepOf(d, s, s', h, c) && (h == me ==> !c.CollectVotes?)
    requires me in s.nodes && s.nodes[me].committed == [] && s.nodes[me].childIndex == map[]
    ensures me in s'.nodes && s'.nodes[me].committed == [] && s'.nodes[me].childIndex == map[]
  {
    if h == me {
      OnlyCollectingIndexes(ParamsOf(d, me), s.nodes[me], c);
      if c.CommitCheck? {
        UnindexedNodeCommitsNothing(s.nodes[me]);
      }
    }
  }

  // ------------------------------------------------------------------ order within one check

  function Hashes(bs: seq<Proposal>): set<Hash> {
    set i | 0 <= i < |bs| :: bs[i].blockHash
  }

  predicate Distinct(bs: seq<Proposal>) {
    forall i, j | 0 <= i < j < |bs| :: bs[i].blockHash != bs[j].blockHash
  }

  predicate SortedByView(bs: seq<Proposal>) {
    forall i, j | 0 <= i < j < |bs| :: bs[i].view <= bs[j].view
  }

  lemma HashesAppend(bs: seq<Proposal>, b: Proposal)
    ensures Hashes(bs + [b]) == Hashes(bs) + {b.blockHash}
    ensures Distinct(bs + [b]) <==> Distinct(bs) && b.blockHash !in Hashes(bs)
  {
    var all := bs + [b];
    assert all[|bs|] == b && forall i | 0 <= i < |bs| :: all[i] == bs[i];
    if Distinct(all) {
      assert forall i, j | 0 <= i < j < |bs| :: all[i].blockHash != all[j].blockHash;
    }
  }

  lemma {:induction false} InsertKeeps(sorted: seq<Proposal>, b: Proposal)
    requires SortedByView(sorted) && Distinct(sorted) && b.blockHash !in Hashes(sorted)
    ensures var r := InsertByView(sorted, b);
            SortedByView(r) && Distinct(r) && Hashes(r) == Hashes(sorted) + {b.blockHash}
  {
    if sorted == [] || sorted[|sorted| - 1].view <= b.view {
      HashesAppend(sorted, b);
    } else {
      var init, last := sorted[..|sorted| - 1], sorted[|sorted| - 1];
      assert sorted == init + [last];
      HashesAppend(init, last);
      InsertKeeps(init, b);
      var r := InsertByView(init, b);
      HashesAppend(r, last);
      SortedAppend(sorted, b, r, last);
    }
  }

  lemma SortedAppend(sorted: seq<Proposal>, b: Proposal, r: seq<Proposal>, last: Proposal)
    requires sorted != [] && SortedByView(sorted) && last == sorted[|sorted| - 1] && b.view < last.view
    requires SortedByView(r) && multiset(r) == multiset(sorted[..|sorted| - 1]) + multiset{b}
    ensures SortedByView(r + [last])
  {
    forall i | 0 <= i < |r| ensures r[i].view <= last.view {
      assert r[i] in multiset(r);
      assert r[i] == b || r[i] in sorted[..|sorted| - 1];
    }
  }

  lemma {:induction false} SortKeeps(bs: seq<Proposal>)
    requires Distinct(bs)
    ensures SortedByView(SortByView(bs)) && Distinct(SortByView(bs)) && Hashes(SortByView(bs)) == Hashes(bs)
  {
    if bs != [] {
      var init, last := bs[..|bs| - 1], bs[|bs| - 1];
      assert bs == init + [last];
      HashesAppend(init, last);
      SortKeeps(init);
      InsertKeeps(SortByView(init), last);
    }
  }

  lemma {:induction false} CandidatesDistinct(s: State, order: seq<Hash>)
    requires WellFiled(s.blocks) && forall i, j | 0 <= i < j < |order| :: order[i] != order[j]
    ensures Distinct(Candidates(s, order))
    ensures Hashes(Candidates(s, order)) == set h | h in order && Committable(s, h)
  {
    if order != [] {
      var init, last := order[..|order| - 1], order[|order| - 1];
      assert order == init + [last];
      CandidatesDistinct(s, init);
      assert forall h :: h in order <==> h in init || h == last;
      if Committable(s, last) {
        HashesAppend(Candidates(s, init), s.blocks[last]);
      }
    }
  }

  lemma {:induction false} CommitAllAppends(s: State, bs: seq<Proposal>)
    requires Distinct(bs) && Hashes(bs) !! s.committedHashes
    ensures CommitAll(s, bs).committed == s.committed + bs
    ensures CommitAll(s, bs).committedHashes == s.committedHashes + Hashes(bs)
  {
    if bs != [] {
      var init, last := bs[..|bs| - 1], bs[|bs| - 1];
      assert bs == init + [last];
      HashesAppend(init, last);
      CommitAllAppends(s, init);
    }
  }

  /** One commit check commits exactly the committable blocks, each once, in view order. */
  lemma CommitCheckCommitsExactly(d: Deployment, me: NodeId, log: Log, s: State) returns (added: seq<Proposal>)
    requires NodeInv(d, me, log, s)
    ensures CommitChecked(s) == CommitAll(s, added) && CommitChecked(s).committed == s.committed + added
    ensures SortedByView(added) && Distinct(added)
    ensures forall h :: h in Hashes(added) <==> Committable(s, h)
    ensures forall b | b in added :: b.blockHash in s.blocks && b == s.blocks[b.blockHash]
  {
    var candidates := Candidates(s, s.blockOrder);
    added := SortByView(candidates);
    CandidatesDistinct(s, s.blockOrder);
    SortKeeps(candidates);
    CommitAllAppends(s, added);
    forall b | b in added
      ensures b.blockHash in s.blocks && b == s.blocks[b.blockHash]
    {
      assert multiset(added) == multiset(candidates);
      assert b in multiset(added) && b in candidates;
    }
  }

  /** In every reachable state the blocks one check commits form a chain in the order committed:
    each extends all earlier ones. */
  lemma CommitCheckCommitsAChain(d: Deployment, run: seq<Sys>, i: nat, me: NodeId) returns (added: seq<Proposal>)
    requires d.Valid() && IsRun(d, run) && i < |run| && me in d.honest && me in run[i].nodes
    ensures CommitChecked(run[i].nodes[me]).committed == run[i].nodes[me].committed + added
    ensures forall h :: h in Hashes(added) <==> Committable(run[i].nodes[me], h)
    ensures forall j, k | 0 <= j < k < |added| ::
              added[j].blockHash != added[k].blockHash && Extends(added[k].blockHash, added[j].blockHash)
  {
    RunKeepsInv(d, run, i);
    var s, log := run[i].nodes[me], run[i].log;
    added := CommitCheckCommitsExactly(d, me, log, s);
    forall j, k | 0 <= j < k < |added|
      ensures Extends(added[k].blockHash, added[j].blockHash)
    {
      var a, b := added[j].blockHash, added[k].blockHash;
      assert a in Hashes(added) && b in Hashes(added);
      assert added[j] in added && added[k] in added;
      CommittableIsFinal(d, me, log, s, a);
      CommittableIsFinal(d, me, log, s, b);
      FinalBlocksInViewOrder(d, log, a, b);
    }
  }
}
