/** What the certified-child index of a node holds in any run (phase5/vap-to.mjs: collectQC,
  indexCertifiedChild): the blocks the node certified itself by collecting votes, never two of one
  parent. Hence exactly which blocks its commit check can commit. */
module ChildIndex {
  import opened Wrappers
  import opened Endorse
  import opened Blocks
  import opened NodeState
  import opened VoteLog
  import opened Protocol
  import opened Commit
  import Ancestry

  // ------------------------------------------------------------------ nobody returns to an indexed parent

  /** No indexed child is later than the highest certificate or the active proposal, and if the active
    proposal's parent is indexed at all, it is with that proposal. */
  predicate Placed(highest: Option<QC>, active: Option<Proposal>, view: int, index: map<Hash, Hash>) {
    && (active.Some? ==> active.value.view <= view)
    && (forall h | h in index :: NotLater(index[h], highest, active))
    && (active.Some? && active.value.parentHash in index ==> index[active.value.parentHash] == active.value.blockHash)
  }

  predicate NotLater(c: Hash, highest: Option<QC>, active: Option<Proposal>) {
    && c.Digest? && highest.Some? && c.content.view <= highest.value.view
    && active.Some? && c.content.view <= active.value.view
  }

  predicate NodePlaced(s: State) {
    Placed(s.highestQC, s.activeProposal, s.view, s.childIndex)
  }

  ghost predicate Fit(d: Deployment, me: NodeId, log: Log, s: State) {
    d.Sizes() && Lawful(d, log) && NodeInv(d, me, log, s) && NodePlaced(s)
  }

  /** An extension of the highest certified block has a parent that is not indexed: the indexed child
    would be later than its parent, and so than the highest certificate. */
  lemma FreshParent(d: Deployment, me: NodeId, log: Log, s: State, parent: Hash)
    requires Fit(d, me, log, s)
    requires s.highestQC.Some? ==> Extends(parent, s.highestQC.value.blockHash)
    ensures parent !in s.childIndex
  {
    if parent in s.childIndex {
      var c, q := s.childIndex[parent], s.highestQC.value.blockHash;
      assert NotLater(c, s.highestQC, s.activeProposal);
      EntryCertified(d, me, log, s, parent);
      assert Extends(parent, q) && parent != Genesis;
      ParentCertifiedInSmallerView(d, log, c);
      AncestorsCertifiedInSmallerViews(d, log, parent, q);
      assert false;
    }
  }

  lemma EntryCertified(d: Deployment, me: NodeId, log: Log, s: State, h: Hash)
    requires NodeInv(d, me, log, s) && h in s.childIndex && s.highestQC.Some?
    ensures Certified(d, log, s.childIndex[h]) && s.childIndex[h].content.parentHash == h
    ensures Certified(d, log, s.highestQC.value.blockHash)
    ensures s.highestQC.value.view == s.highestQC.value.blockHash.content.view
  {
    hide Certified, BlocksFiled, VotesKept, CommitsFinal;
    assert Backed(d, log, s.qcByBlockHash[s.childIndex[h]]);
  }

  lemma ProposedPlaced(d: Deployment, me: NodeId, log: Log, s: State, view: int)
    requires d.Valid() && me in d.honest && Fit(d, me, log, s) && ParamsOf(d, me).Valid()
    ensures NodePlaced(Proposed(ParamsOf(d, me), s, view))
  {
    hide Lawful, NodeInv, SortTxs, Deployment.Valid, Deployment.Sizes;
    var p := ParamsOf(d, me);
    if ProposeRefused(p, s, view).None? {
      FreshParent(d, me, log, s, Baseline(s));
      NewActivePlaced(s, NewProposal(p, s, view), Max(s.view, view));
    }
  }

  /** A later proposal with a parent not indexed may become the active one. */
  lemma NewActivePlaced(s: State, b: Proposal, view: int)
    requires NodePlaced(s) && s.view <= b.view <= view && b.parentHash !in s.childIndex
    ensures Placed(s.highestQC, Some(b), view, s.childIndex)
  {
    forall h | h in s.childIndex ensures NotLater(s.childIndex[h], s.highestQC, Some(b)) {
      assert NotLater(s.childIndex[h], s.highestQC, s.activeProposal);
    }
  }

  /** The highest certificate may only rise without a collection. */
  lemma AdoptedPlaced(s: State, qc: QC)
    requires NodePlaced(s) && (s.highestQC.Some? ==> s.highestQC.value.view <= qc.view)
    ensures NodePlaced(Adopt(s, qc))
  {
    forall h | h in s.childIndex ensures NotLater(s.childIndex[h], Some(qc), s.activeProposal) {
      assert NotLater(s.childIndex[h], s.highestQC, s.activeProposal);
    }
  }

  lemma VotedPlaced(d: Deployment, me: NodeId, log: Log, s: State, b: Proposal)
    requires d.Valid() && Fit(d, me, log, s) && ParamsOf(d, me).Valid() && GenuineOption(d, log, b.justify)
    ensures NodePlaced(Voted(ParamsOf(d, me), s, b).0)
  {
    hide Lawful, NodeInv, NodePlaced, Extension, Deployment.Valid, Deployment.Sizes, GenuineOption, CastVote;
    var p, s1 := ParamsOf(d, me), AdoptJustify(s, b);
    VotedCases(p, s, b);
    if Admission(p, s, b).None? {
      AdoptJustifyKeeps(d, me, log, s, b);
      if s1 != s {
        AdoptedPlaced(s, b.justify.value);
      }
      if Extension(s1, b).None? {
        CastPlaced(d, me, log, s1, b);
      }
    }
  }

  lemma CastPlaced(d: Deployment, me: NodeId, log: Log, s: State, b: Proposal)
    requires Fit(d, me, log, s) && Extension(s, b).None? && b.view >= s.view
    ensures NodePlaced(CastVote(s, b))
  {
    if s.highestQC.Some? {
      Ancestry.IsDescendantIsSound(s.blocks, b.parentHash, s.highestQC.value.blockHash);
      HighestIsBlock(d, me, log, s);
    }
    FreshParent(d, me, log, s, b.parentHash);
    NewActivePlaced(s, b, Max(s.view, b.view));
  }

  lemma HighestIsBlock(d: Deployment, me: NodeId, log: Log, s: State)
    requires NodeInv(d, me, log, s) && s.highestQC.Some?
    ensures s.highestQC.value.blockHash.Digest?
  {
    hide BlocksFiled, VotesKept, CommitsFinal, ChildrenIndexed;
    assert Backed(d, log, s.highestQC.value);
  }

  lemma AdoptedNewViewPlaced(p: Params, s: State, nv: NewView)
    requires NodePlaced(s)
    ensures NodePlaced(AdoptedNewView(p, s, nv))
  {
    if nv.anchorQC.Some? && !RejectsAnchor(p, s, nv) {
      AdoptedPlaced(s, nv.anchorQC.value);
    }
  }

  lemma ProposedNewViewPlaced(d: Deployment, me: NodeId, log: Log, s: State, view: int)
    requires d.Valid() && me in d.honest && Fit(d, me, log, s) && ParamsOf(d, me).Valid()
    ensures NodePlaced(ProposedNewView(ParamsOf(d, me), s, view))
  {
    hide Lawful, Deployment.Valid, Deployment.Sizes, NodePlaced, Proposed, AdoptedNewView, RejectsAnchor;
    var p := ParamsOf(d, me);
    var nv := AggregatedNewView(p, s, view);
    if view >= 0 && p.LeaderOf(view) == me && nv.Some? {
      var s1 := Aggregated(p, s, view);
      AggregatedPlaced(d, me, log, p, s, view);
      if !RejectsAnchor(p, s1, nv.value) {
        AdoptedNewViewKeeps(d, me, log, s1, nv.value);
        AdoptedNewViewPlaced(p, s1, nv.value);
        ProposedPlaced(d, me, log, AdoptedNewView(p, s1, nv.value), view);
      }
    }
  }

  lemma AggregatedPlaced(d: Deployment, me: NodeId, log: Log, p: Params, s: State, view: int)
    requires NodeInv(d, me, log, s) && NodePlaced(s)
    ensures NodeInv(d, me, log, Aggregated(p, s, view)) && NodePlaced(Aggregated(p, s, view))
    ensures AggregatedNewView(p, s, view).Some? ==> GenuineOption(d, log, AggregatedNewView(p, s, view).value.anchorQC)
  {
  }

  /** Collecting files the active block under its parent, where nothing else is. */
  lemma CollectedPlaced(d: Deployment, me: NodeId, log: Log, s: State, votes: seq<Endorsement<Message>>)
    requires NodeInv(d, me, log, s) && NodePlaced(s)
    ensures var p := ParamsOf(d, me);
            var qc := CollectedQC(p, s, votes);
            var t := Collected(p, s, votes);
            && NodePlaced(t)
            && (if qc.None? then t.childIndex == s.childIndex
                else
                  var c := qc.value.blockHash;
                  && c.Digest? && (ParentOf(c) in s.childIndex ==> s.childIndex[ParentOf(c)] == c)
                  && t.childIndex == s.childIndex[ParentOf(c) := c])
  {
    hide QCsBacked, ChildrenIndexed, VotesKept, CommitsFinal, ValidSigners, Kept;
    var p := ParamsOf(d, me);
    var qc := CollectedQC(p, s, votes);
    if qc.Some? {
      var b := s.activeProposal.value;
      ActiveIsStored(s.blocks, s.blockOrder, s.activeProposal);
      forall h | h in s.childIndex ensures NotLater(s.childIndex[h], qc, s.activeProposal) {
        assert NotLater(s.childIndex[h], s.highestQC, s.activeProposal);
      }
    }
  }

  lemma ActiveIsStored(blocks: map<Hash, Proposal>, order: seq<Hash>, active: Option<Proposal>)
    requires BlocksFiled(blocks, order, active) && active.Some?
    ensures var b, h := active.value, active.value.blockHash;
            && h in blocks && blocks[h].blockHash == h && blocks[h].parentHash == ParentOf(h)
            && h.Digest? && h.content.view == b.view && ParentOf(h) == b.parentHash
  {
    assert blocks[active.value.blockHash].blockHash == active.value.blockHash;
  }

  lemma OtherPlaced(p: Params, s: State, c: Call)
    requires p.Valid() && NodePlaced(s)
    requires c.CommitCheck? || c.Timeout? || c.ReceiveViewChange? || c.AggregateNewView? || c.Expel? || c.Submit?
    ensures NodePlaced(After(p, s, c))
  {
    hide CommitAll, SortByView, Candidates, AggregatedNewView, OwnViewChange, AcceptsViewChange;
    if c.CommitCheck? {
      CheckedFrame(s, SortByView(Candidates(s, s.blockOrder)));
    }
  }

  lemma {:induction false} CheckedFrame(s: State, bs: seq<Proposal>)
    ensures var t := CommitAll(s, bs);
            && t.highestQC == s.highestQC && t.activeProposal == s.activeProposal && t.view == s.view
            && t.childIndex == s.childIndex
  {
    if bs != [] {
      CheckedFrame(s, bs[..|bs| - 1]);
    }
  }

  /** Every call keeps the index placed. */
  lemma CallPlaced(d: Deployment, log: Log, s: State, h: NodeId, c: Call)
    requires d.Valid() && h in d.honest && Deliverable(d, log, c) && Fit(d, h, log, s) && ParamsOf(d, h).Valid()
    ensures NodePlaced(After(ParamsOf(d, h), s, c))
  {
    hide Lawful, NodeInv, NodePlaced, Deployment.Valid, Deployment.Sizes, Genuine, GenuineQC;
    var p := ParamsOf(d, h);
    match c
    case Propose(view) => ProposedPlaced(d, h, log, s, view);
    case VoteOn(b) => VotedPlaced(d, h, log, s, b);
    case CollectVotes(votes) => CollectedPlaced(d, h, log, s, votes);
    case AdoptNewView(nv) => AdoptedNewViewPlaced(p, s, nv);
    case ProposeNewView(view) => ProposedNewViewPlaced(d, h, log, s, view);
    case _ => OtherPlaced(p, s, c);
  }

  // ------------------------------------------------------------------ in every run

  type Calls = seq<(NodeId, Call)>

  /** A run with the calls it is made of. */
  ghost predicate RunOf(d: Deployment, run: seq<Sys>, calls: Calls) {
    IsRun(d, run) && |run| == |calls| + 1 && forall k | 0 <= k < |calls| :: TakenAt(d, run, calls, k)
  }

  ghost predicate AllPlaced(s: Sys) {
    forall h | h in s.nodes :: NodePlaced(s.nodes[h])
  }

  lemma {:induction false} RunPlaced(d: Deployment, run: seq<Sys>, calls: Calls, i: nat)
    requires d.Valid() && RunOf(d, run, calls) && i < |run|
    ensures d.Sizes() && Inv(d, run[i]) && AllPlaced(run[i])
  {
    hide Deployment.Valid, Deployment.Sizes, Inv, AllPlaced, StepAt, TakenAt, Init;
    RunKeepsInv(d, run, i);
    if i == 0 {
      InitPlaced(d, run[0]);
    } else {
      RunPlaced(d, run, calls, i - 1);
      StepPlaced(d, run, calls, i - 1);
    }
  }

  lemma InitPlaced(d: Deployment, s: Sys)
    requires Init(d, s)
    ensures AllPlaced(s)
  {
  }

  lemma StepPlaced(d: Deployment, run: seq<Sys>, calls: Calls, k: nat)
    requires d.Valid() && d.Sizes() && k < |calls| && |run| == |calls| + 1 && TakenAt(d, run, calls, k)
    requires Inv(d, run[k]) && AllPlaced(run[k])
    ensures AllPlaced(run[k + 1])
  {
    hide NodeInv, Lawful, Deployment.Valid, Deployment.Sizes, NodePlaced, After, CastBy, Deliverable;
    var h := calls[k].0;
    CallPlaced(d, run[k].log, run[k].nodes[h], h, calls[k].1);
  }

  /** The block me certified by collecting votes in call k. */
  ghost function CollectedHash(d: Deployment, run: seq<Sys>, calls: Calls, k: nat, me: NodeId): Option<Hash>
    requires k < |calls| && |run| == |calls| + 1
  {
    if calls[k].0 != me || !calls[k].1.CollectVotes? || me !in run[k].nodes then None
    else
      var qc := CollectedQC(ParamsOf(d, me), run[k].nodes[me], calls[k].1.votes);
      if qc.None? then None else Some(qc.value.blockHash)
  }

  /** Among its first i calls is one in which me certified c by collecting votes. */
  ghost predicate Collects(d: Deployment, run: seq<Sys>, calls: Calls, i: nat, me: NodeId, c: Hash)
    requires i <= |calls| && |run| == |calls| + 1
  {
    exists k :: 0 <= k < i && CollectedHash(d, run, calls, k, me) == Some(c)
  }

  lemma CollectsStep(d: Deployment, run: seq<Sys>, calls: Calls, i: nat, me: NodeId, c: Hash)
    requires i < |calls| && |run| == |calls| + 1
    ensures Collects(d, run, calls, i + 1, me, c) <==>
            Collects(d, run, calls, i, me, c) || CollectedHash(d, run, calls, i, me) == Some(c)
  {
    hide CollectedHash;
  }

  /** What one call does to the index of me: nothing, or one entry that stands there already or is new. */
  lemma StepIndexes(d: Deployment, run: seq<Sys>, calls: Calls, k: nat, me: NodeId)
    requires d.Valid() && k < |calls| && |run| == |calls| + 1 && TakenAt(d, run, calls, k)
    requires Inv(d, run[k]) && AllPlaced(run[k]) && me in d.honest
    ensures me in run[k].nodes && me in run[k + 1].nodes
    ensures var c := CollectedHash(d, run, calls, k, me);
            var before, after := run[k].nodes[me].childIndex, run[k + 1].nodes[me].childIndex;
            if c.None? then after == before
            else
              && c.value.Digest? && after == before[ParentOf(c.value) := c.value]
              && (ParentOf(c.value) in before ==> before[ParentOf(c.value)] == c.value)
  {
    hide NodeInv, Collected, CollectedQC, Lawful, Deployment.Valid, NodePlaced;
    var s, c := run[k].nodes[me], calls[k].1;
    if calls[k].0 == me {
      if c.CollectVotes? {
        CollectedPlaced(d, me, run[k].log, s, c.votes);
      } else {
        OnlyCollectingIndexes(ParamsOf(d, me), s, c);
      }
    }
  }

  predicate Entry(index: map<Hash, Hash>, h: Hash, c: Hash) {
    h in index && index[h] == c
  }

  /** The index holds exactly the blocks the node certified itself, each under its parent. */
  ghost predicate IndexMirrors(d: Deployment, run: seq<Sys>, calls: Calls, i: nat, me: NodeId)
    requires i <= |calls| && |run| == |calls| + 1
  {
    && me in run[i].nodes
    && (forall h, c :: Entry(run[i].nodes[me].childIndex, h, c) <==> ParentOf(c) == h && Collects(d, run, calls, i, me, c))
    && (forall c | Collects(d, run, calls, i, me, c) :: c.Digest?)
  }

  /** In every run a node's index depends on nothing but the votes it collected. */
  lemma {:induction false} IndexIsHistory(d: Deployment, run: seq<Sys>, calls: Calls, i: nat, me: NodeId)
    requires d.Valid() && RunOf(d, run, calls) && i < |run| && me in d.honest
    ensures IndexMirrors(d, run, calls, i, me)
  {
    hide TakenAt, Deployment.Valid, IndexMirrors, StepAt, Init, Inv, AllPlaced;
    if i == 0 {
      NothingCollected(d, run, calls, me);
    } else {
      IndexIsHistory(d, run, calls, i - 1, me);
      RunPlaced(d, run, calls, i - 1);
      IndexStep(d, run, calls, i - 1, me);
    }
  }

  lemma NothingCollected(d: Deployment, run: seq<Sys>, calls: Calls, me: NodeId)
    requires |run| == |calls| + 1 && Init(d, run[0]) && me in d.honest
    ensures IndexMirrors(d, run, calls, 0, me)
  {
  }

  lemma IndexStep(d: Deployment, run: seq<Sys>, calls: Calls, k: nat, me: NodeId)
    requires d.Valid() && k < |calls| && |run| == |calls| + 1 && TakenAt(d, run, calls, k)
    requires Inv(d, run[k]) && AllPlaced(run[k]) && me in d.honest && IndexMirrors(d, run, calls, k, me)
    ensures IndexMirrors(d, run, calls, k + 1, me)
  {
    hide TakenAt, Deployment.Valid, CollectedHash, Collects, Inv, AllPlaced;
    StepIndexes(d, run, calls, k, me);
    forall c ensures Collects(d, run, calls, k + 1, me, c) <==>
                     Collects(d, run, calls, k, me, c) || CollectedHash(d, run, calls, k, me) == Some(c)
    {
      CollectsStep(d, run, calls, k, me, c);
    }
    var before, after, x := run[k].nodes[me].childIndex, run[k + 1].nodes[me].childIndex, CollectedHash(d, run, calls, k, me);
    forall h, c ensures Entry(after, h, c) <==> Entry(before, h, c) || (x == Some(c) && h == ParentOf(c)) {
      if x.Some? {
        EntryAdded(before, x.value, h, c);
      }
    }
  }

  lemma EntryAdded(index: map<Hash, Hash>, x: Hash, h: Hash, c: Hash)
    requires ParentOf(x) in index ==> index[ParentOf(x)] == x
    ensures Entry(index[ParentOf(x) := x], h, c) <==> Entry(index, h, c) || (x == c && h == ParentOf(c))
  {
  }

  /** No node ever collects votes for two children of one parent. */
  lemma NeverTwoChildren(d: Deployment, run: seq<Sys>, calls: Calls, i: nat, me: NodeId, b: Hash, c: Hash)
    requires d.Valid() && RunOf(d, run, calls) && i < |run| && me in d.honest
    requires Collects(d, run, calls, i, me, b) && Collects(d, run, calls, i, me, c) && ParentOf(b) == ParentOf(c)
    ensures b == c
  {
    hide IsRun, TakenAt, Deployment.Valid, Collects;
    IndexIsHistory(d, run, calls, i, me);
    var index := run[i].nodes[me].childIndex;
    assert Entry(index, ParentOf(b), b) && Entry(index, ParentOf(c), c);
  }

  /** No entry of the index is ever overwritten or lost. */
  lemma {:induction false} EntriesStay(d: Deployment, run: seq<Sys>, calls: Calls, i: nat, j: nat, me: NodeId, h: Hash)
    requires d.Valid() && RunOf(d, run, calls) && i <= j < |run| && me in d.honest
    requires me in run[i].nodes && h in run[i].nodes[me].childIndex
    ensures me in run[j].nodes && Entry(run[j].nodes[me].childIndex, h, run[i].nodes[me].childIndex[h])
    decreases j
  {
    hide Deployment.Valid, Inv, AllPlaced, IsRun, CollectedHash, TakenAt;
    if i < j {
      EntriesStay(d, run, calls, i, j - 1, me, h);
      RunPlaced(d, run, calls, j - 1);
      StepIndexes(d, run, calls, j - 1, me);
    }
  }

  // ------------------------------------------------------------------ what can be committed

  lemma ReachedNode(d: Deployment, run: seq<Sys>, calls: Calls, i: nat, me: NodeId)
    requires d.Valid() && RunOf(d, run, calls) && i < |run| && me in d.honest
    ensures me in run[i].nodes && NodeInv(d, me, run[i].log, run[i].nodes[me])
  {
    hide Deployment.Valid, NodeInv, Lawful, StepAt, Init, TakenAt;
    RunKeepsInv(d, run, i);
  }

  /** The exact condition for committing, for every node in every run: a block stored, certified and not
    yet committed is committed by the next check if and only if the node itself collected the votes for a
    child of the block and for a child of that child. Certificates learnt from others do not count. */
  lemma CommittableIff(d: Deployment, run: seq<Sys>, calls: Calls, i: nat, me: NodeId, h: Hash)
    requires d.Valid() && RunOf(d, run, calls) && i < |run| && me in d.honest && me in run[i].nodes
    ensures Committable(run[i].nodes[me], h) <==>
            && h in run[i].nodes[me].blocks && h in run[i].nodes[me].qcByBlockHash && h !in run[i].nodes[me].committedHashes
            && exists c, g :: CollectedPair(d, run, calls, i, me, h, c, g)
  {
    hide IsRun, TakenAt, Deployment.Valid, Collects, NodeInv;
    IndexIsHistory(d, run, calls, i, me);
    ReachedNode(d, run, calls, i, me);
    var s := run[i].nodes[me];
    CommittableByIndex(d, me, run[i].log, s, h);
    if exists c, g :: Entry(s.childIndex, h, c) && Entry(s.childIndex, c, g) {
      var c, g :| Entry(s.childIndex, h, c) && Entry(s.childIndex, c, g);
      assert CollectedPair(d, run, calls, i, me, h, c, g);
    }
    if exists c, g :: CollectedPair(d, run, calls, i, me, h, c, g) {
      var c, g :| CollectedPair(d, run, calls, i, me, h, c, g);
      assert Entry(s.childIndex, h, c) && Entry(s.childIndex, c, g);
    }
  }

  /** me collected votes for a child c of h and for a child g of c. */
  ghost predicate CollectedPair(d: Deployment, run: seq<Sys>, calls: Calls, i: nat, me: NodeId, h: Hash, c: Hash,
                                g: Hash)
    requires i <= |calls| && |run| == |calls| + 1
  {
    ParentOf(c) == h && ParentOf(g) == c && Collects(d, run, calls, i, me, c) && Collects(d, run, calls, i, me, g)
  }

  lemma CommittableByIndex(d: Deployment, me: NodeId, log: Log, s: State, h: Hash)
    requires NodeInv(d, me, log, s)
    ensures Committable(s, h) <==>
            && h in s.blocks && h in s.qcByBlockHash && h !in s.committedHashes
            && exists c, g :: Entry(s.childIndex, h, c) && Entry(s.childIndex, c, g)
  {
    hide QCsBacked, VotesKept, CommitsFinal;
    if h in s.childIndex {
      var c := s.childIndex[h];
      assert c in s.blocks && s.blocks[c].blockHash == c && Entry(s.childIndex, h, c);
      if c in s.childIndex {
        assert s.childIndex[c] in s.blocks && Entry(s.childIndex, c, s.childIndex[c]);
      }
    }
  }

  /** The index misses no stored certified block if and only if the node collected the votes for all of
    them itself. */
  lemma IndexCompleteIff(d: Deployment, run: seq<Sys>, calls: Calls, i: nat, me: NodeId)
    requires d.Valid() && RunOf(d, run, calls) && i < |run| && me in d.honest && me in run[i].nodes
    ensures IndexComplete(run[i].nodes[me]) <==>
            forall c | c in run[i].nodes[me].blocks && c in run[i].nodes[me].qcByBlockHash ::
              Collects(d, run, calls, i, me, c)
  {
    hide IsRun, TakenAt, Deployment.Valid, Collects, NodeInv;
    IndexIsHistory(d, run, calls, i, me);
    ReachedNode(d, run, calls, i, me);
    var s := run[i].nodes[me];
    CertifiedAreDigests(d, me, run[i].log, s);
    forall c | c in s.blocks && c in s.qcByBlockHash
      ensures Collects(d, run, calls, i, me, c) <==>
              c.content.parentHash in s.childIndex && s.childIndex[c.content.parentHash] == c
    {
      assert Entry(s.childIndex, ParentOf(c), c) <==> Collects(d, run, calls, i, me, c);
    }
  }

  lemma CertifiedAreDigests(d: Deployment, me: NodeId, log: Log, s: State)
    requires NodeInv(d, me, log, s)
    ensures forall c | c in s.qcByBlockHash :: c.Digest?
  {
    hide BlocksFiled, VotesKept, CommitsFinal, ChildrenIndexed;
    forall c | c in s.qcByBlockHash ensures c.Digest? {
      assert Backed(d, log, s.qcByBlockHash[c]);
    }
  }

  /** For such a node the candidates of the next check are exactly what a scan of all blocks would find. */
  lemma CollectedScanIsFull(d: Deployment, run: seq<Sys>, calls: Calls, i: nat, me: NodeId)
    requires d.Valid() && RunOf(d, run, calls) && i < |run| && me in d.honest && me in run[i].nodes
    requires forall c | c in run[i].nodes[me].blocks && c in run[i].nodes[me].qcByBlockHash ::
               Collects(d, run, calls, i, me, c)
    ensures forall h :: h in Hashes(Candidates(run[i].nodes[me], run[i].nodes[me].blockOrder)) <==> FullScan(run[i].nodes[me], h)
  {
    hide IsRun, TakenAt, Deployment.Valid, NodeInv, Collects, IndexComplete, FullScan, Committable;
    var s := run[i].nodes[me];
    IndexCompleteIff(d, run, calls, i, me);
    ReachedNode(d, run, calls, i, me);
    CandidatesAre(d, me, run[i].log, s);
    forall h ensures h in Hashes(Candidates(s, s.blockOrder)) <==> FullScan(s, h) {
      IndexedScanAgainstFullScan(d, me, run[i].log, s, h);
    }
  }

  lemma CandidatesAre(d: Deployment, me: NodeId, log: Log, s: State)
    requires NodeInv(d, me, log, s)
    ensures forall h :: h in Hashes(Candidates(s, s.blockOrder)) <==> Committable(s, h)
  {
    CandidatesDistinct(s, s.blockOrder);
  }
}
