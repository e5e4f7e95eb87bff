/** The protocol as a transition system: honest nodes take the steps of NodeState.dfy in any interleaving, on
  any input that forges no honest signature. */
module Protocol {
  // Faulty members have no state; whatever they could send is some input.

  import opened Wrappers
  import opened Endorse
  import opened Blocks
  import opened NodeState
  import opened VoteLog
  import Ancestry
  import Quorum

  datatype Sys = Sys(nodes: map<NodeId, State>, log: Log)

  /** One call on a node, with the data it is called with. */
  datatype Call =
    | Propose(view: int)
    | VoteOn(proposal: Proposal)
    | CollectVotes(votes: seq<Endorsement<Message>>)
    | CommitCheck
    | Timeout
    | ReceiveViewChange(vc: ViewChange)
    | AggregateNewView(view: int)
    | AdoptNewView(nv: NewView)
    | ProposeNewView(view: int)
    | Expel(id: NodeId)
    | Submit(tx: Tx)

  function ParamsOf(d: Deployment, me: NodeId): Params {
    Params(me, d.roster, d.keys, d.n, d.f)
  }

  /** An honest key's signature over a vote exists only if that node cast the vote. */
  predicate Genuine(d: Deployment, log: Log, e: Endorsement<Message>) {
    e.Endorsement? && e.sig.SignedBy? && e.sig.message.VoteMessage? ==>
      forall h | h in d.honest && h in d.keys && d.keys[h] == e.sig.key ::
        var t := e.sig.message.target;
        Vote(h, t.blockHash) in log && t.blockHash.Digest? && t == TargetOf(t.blockHash)
  }

  predicate GenuineQC(d: Deployment, log: Log, qc: QC) {
    forall i | 0 <= i < |qc.sigs| :: Genuine(d, log, qc.sigs[i])
  }

  predicate GenuineOption(d: Deployment, log: Log, qc: Option<QC>) {
    qc.Some? ==> GenuineQC(d, log, qc.value)
  }

  /** The adversary's only limit: no forged votes of honest nodes inside what it sends. */
  predicate Deliverable(d: Deployment, log: Log, c: Call) {
    match c
    case VoteOn(b) => GenuineOption(d, log, b.justify)
    case CollectVotes(votes) => forall i | 0 <= i < |votes| :: Genuine(d, log, votes[i])
    case ReceiveViewChange(vc) => GenuineOption(d, log, vc.highestQC)
    case AdoptNewView(nv) => GenuineOption(d, log, nv.anchorQC)
    case _ => true
  }

  ghost function After(p: Params, s: State, c: Call): State
    requires p.Valid()
  {
    match c
    case Propose(view) => Proposed(p, s, view)
    case VoteOn(b) => Voted(p, s, b).0
    case CollectVotes(votes) => Collected(p, s, votes)
    case CommitCheck => CommitChecked(s)
    case Timeout => TimedOut(p, s)
    case ReceiveViewChange(vc) => ReceivedViewChange(p, s, vc)
    case AggregateNewView(view) => Aggregated(p, s, view)
    case AdoptNewView(nv) => AdoptedNewView(p, s, nv)
    case ProposeNewView(view) => ProposedNewView(p, s, view)
    case Expel(id) => Expelled(s, id)
    case Submit(tx) => Submitted(s, tx)
  }

  /** The vote a call casts, if any. */
  ghost function CastBy(p: Params, s: State, c: Call): Log
    requires p.Valid()
  {
    if c.VoteOn? && Voted(p, s, c.proposal).1.None? then [Vote(p.me, c.proposal.blockHash)] else []
  }

  lemma ParamsValid(d: Deployment, h: NodeId)
    requires d.Valid() && h in d.honest
    ensures ParamsOf(d, h).Valid()
  {
  }

  predicate Init(d: Deployment, s: Sys) {
    s.nodes.Keys == d.honest && (forall h | h in d.honest :: s.nodes[h] == InitialState) && s.log == []
  }

  ghost predicate StepOf(d: Deployment, s: Sys, s': Sys, h: NodeId, c: Call) {
    && h in d.honest && h in s.nodes
    && Deliverable(d, s.log, c)
    && ParamsOf(d, h).Valid()
    && s'.nodes == s.nodes[h := After(ParamsOf(d, h), s.nodes[h], c)]
    && s'.log == s.log + CastBy(ParamsOf(d, h), s.nodes[h], c)
  }

  ghost predicate Step(d: Deployment, s: Sys, s': Sys) {
    exists h, c :: StepOf(d, s, s', h, c)
  }

  ghost predicate StepAt(d: Deployment, run: seq<Sys>, i: nat)
    requires i + 1 < |run|
  {
    Step(d, run[i], run[i + 1])
  }

  ghost predicate IsRun(d: Deployment, run: seq<Sys>) {
    && |run| > 0 && Init(d, run[0])
    && forall i | 0 <= i < |run| - 1 :: StepAt(d, run, i)
  }

  // ------------------------------------------------------------------ what every node keeps

  /** A certificate a node holds: genuine, consistent with the block it names, and backed by a
    quorum in the log. */
  predicate Backed(d: Deployment, log: Log, qc: QC) {
    && GenuineQC(d, log, qc)
    && Certified(d, log, qc.blockHash)
    && qc.view == qc.blockHash.content.view && qc.parentHash == qc.blockHash.content.parentHash
  }

  predicate QCsBacked(d: Deployment, log: Log, highest: Option<QC>, qcs: map<Hash, QC>, changes: map<NodeId, map<int, ViewChange>>) {
    && (highest.Some? ==> Backed(d, log, highest.value))
    && (forall h | h in qcs :: Backed(d, log, qcs[h]) && qcs[h].blockHash == h)
    && (forall id, v | id in changes && v in changes[id] :: GenuineOption(d, log, changes[id][v].highestQC))
  }

  ghost predicate BlocksFiled(blocks: map<Hash, Proposal>, order: seq<Hash>, active: Option<Proposal>) {
    && WellFiled(blocks)
    && (forall h :: h in order <==> h in blocks)
    && (forall i, j | 0 <= i < j < |order| :: order[i] != order[j])
    && (active.Some? ==> active.value.blockHash in blocks && active.value.blockHash == HashBlock(active.value))
  }

  /** Every indexed child is a stored, certified, direct child. */
  predicate ChildrenIndexed(index: map<Hash, Hash>, stored: set<Hash>, certified: set<Hash>) {
    forall h | h in index ::
      var c := index[h];
      c in stored && c in certified && c.Digest? && c.content.parentHash == h
  }

  /** The node's own votes: in views it remembers, not above its current view, and every parent it
    ever voted on is an ancestor of its lock. */
  predicate VotesKept(me: NodeId, log: Log, view: int, votedViews: set<int>, lock: Option<Lock>) {
    && view >= 0
    && (lock.Some? ==> lock.value.blockHash != Genesis)
    && (forall i | 0 <= i < |log| && log[i].node == me :: VoteKept(log[i], view, votedViews, lock))
  }

  predicate VoteKept(v: Vote, view: int, votedViews: set<int>, lock: Option<Lock>) {
    && v.block.Digest?
    && v.block.content.view <= view && v.block.content.view in votedViews
    && (v.block.content.parentHash != Genesis ==>
          lock.Some? && Extends(lock.value.blockHash, v.block.content.parentHash))
  }

  ghost predicate CommitsFinal(d: Deployment, log: Log, committed: seq<Proposal>) {
    forall i | 0 <= i < |committed| :: Final(d, log, committed[i].blockHash)
  }

  ghost predicate NodeInv(d: Deployment, me: NodeId, log: Log, s: State) {
    && QCsBacked(d, log, s.highestQC, s.qcByBlockHash, s.viewChanges)
    && BlocksFiled(s.blocks, s.blockOrder, s.activeProposal)
    && ChildrenIndexed(s.childIndex, s.blocks.Keys, s.qcByBlockHash.Keys)
    && VotesKept(me, log, s.view, s.votedViews, s.lock)
    && CommitsFinal(d, log, s.committed)
  }

  ghost predicate Inv(d: Deployment, s: Sys) {
    && s.nodes.Keys == d.honest
    && Lawful(d, s.log)
    && forall h | h in s.nodes :: NodeInv(d, h, s.log, s.nodes[h])
  }

  // ------------------------------------------------------------------ certificates are backed

  lemma SignersSupport(d: Deployment, log: Log, target: VoteTarget, sigs: seq<Endorsement<Message>>, roster: Roster)
    requires d.Valid() && d.Sizes()
    requires forall i | 0 <= i < |sigs| :: Genuine(d, log, sigs[i])
    requires forall id | id in roster :: id in d.keys && roster[id] == Some(d.keys[id])
    requires |ValidSigners(VoteMessage(target), sigs, roster)| >= Quorum.Threshold(d.n, d.f)
    ensures target.blockHash.Digest? && target == TargetOf(target.blockHash)
    ensures Certified(d, log, target.blockHash)
  {
    var signers := ValidSigners(VoteMessage(target), sigs, roster);
    forall id | id in signers
      ensures id in d.Members()
      ensures id in d.honest ==> Vote(id, target.blockHash) in log && target.blockHash.Digest? && target == TargetOf(target.blockHash)
    {
      var i :| 0 <= i < |sigs| && Valid(VoteMessage(target), roster, sigs[i]) && sigs[i].nodeId == id;
      assert Genuine(d, log, sigs[i]);
    }
    var h := Quorum.HonestOverlap(d.Members(), d.honest, d.n, d.f, signers, signers);
    forall id | id in signers
      ensures id in Support(d, log, target.blockHash)
    {
      if id in d.honest {
        var k :| 0 <= k < |log| && log[k] == Vote(id, target.blockHash);
        assert log[k].block == target.blockHash;
      }
    }
    Quorum.SubsetCardinality(signers, Support(d, log, target.blockHash));
  }

  lemma VerifiedIsBacked(d: Deployment, me: NodeId, log: Log, s: State, qc: QC)
    requires d.Valid() && d.Sizes() && GenuineQC(d, log, qc) && QCVerifies(ParamsOf(d, me), s, qc)
    ensures Backed(d, log, qc)
  {
    SignersSupport(d, log, VoteTarget(qc.view, qc.blockHash, qc.parentHash), qc.sigs, ActiveRoster(ParamsOf(d, me), s));
  }

  // ------------------------------------------------------------------ growth of the log

  lemma GenuineMonotone(d: Deployment, log: Log, more: Log, qc: QC)
    requires log <= more && GenuineQC(d, log, qc)
    ensures GenuineQC(d, more, qc)
  {
    forall v: Vote | v in log ensures v in more {
      var k :| 0 <= k < |log| && log[k] == v;
      assert more[k] == v;
    }
    forall i | 0 <= i < |qc.sigs| ensures Genuine(d, more, qc.sigs[i]) {
      assert Genuine(d, log, qc.sigs[i]);
    }
  }

  lemma BackedMonotone(d: Deployment, log: Log, more: Log, qc: QC)
    requires log <= more && Backed(d, log, qc)
    ensures Backed(d, more, qc)
  {
    GenuineMonotone(d, log, more, qc);
    CertifiedMonotone(d, log, more, qc.blockHash);
  }

  lemma QCsBackedMonotone(d: Deployment, log: Log, more: Log, s: State)
    requires log <= more && QCsBacked(d, log, s.highestQC, s.qcByBlockHash, s.viewChanges)
    ensures QCsBacked(d, more, s.highestQC, s.qcByBlockHash, s.viewChanges)
  {
    if s.highestQC.Some? {
      BackedMonotone(d, log, more, s.highestQC.value);
    }
    forall h | h in s.qcByBlockHash ensures Backed(d, more, s.qcByBlockHash[h]) {
      BackedMonotone(d, log, more, s.qcByBlockHash[h]);
    }
    forall id, v | id in s.viewChanges && v in s.viewChanges[id]
      ensures GenuineOption(d, more, s.viewChanges[id][v].highestQC)
    {
      if s.viewChanges[id][v].highestQC.Some? {
        GenuineMonotone(d, log, more, s.viewChanges[id][v].highestQC.value);
      }
    }
  }

  lemma CommitsMonotone(d: Deployment, log: Log, more: Log, committed: seq<Proposal>)
    requires log <= more && CommitsFinal(d, log, committed)
    ensures CommitsFinal(d, more, committed)
  {
    forall i | 0 <= i < |committed| ensures Final(d, more, committed[i].blockHash) {
      FinalMonotone(d, log, more, committed[i].blockHash);
    }
  }

  lemma OtherNodeKeeps(d: Deployment, me: NodeId, log: Log, v: Vote, s: State)
    requires NodeInv(d, me, log, s) && v.node != me
    ensures NodeInv(d, me, log + [v], s)
  {
    QCsBackedMonotone(d, log, log + [v], s);
    CommitsMonotone(d, log, log + [v], s.committed);
  }

  // ------------------------------------------------------------------ calls that cast no vote

  lemma AdoptKeeps(d: Deployment, me: NodeId, log: Log, s: State, qc: QC)
    requires NodeInv(d, me, log, s) && Backed(d, log, qc)
    ensures NodeInv(d, me, log, Adopt(s, qc))
  {
  }

  lemma CollectedKeeps(d: Deployment, me: NodeId, log: Log, s: State, votes: seq<Endorsement<Message>>)
    requires d.Valid() && d.Sizes() && NodeInv(d, me, log, s) && Deliverable(d, log, CollectVotes(votes))
    ensures NodeInv(d, me, log, Collected(ParamsOf(d, me), s, votes))
  {
    var p := ParamsOf(d, me);
    var qc := CollectedQC(p, s, votes);
    if qc.Some? {
      var b := s.activeProposal.value;
      var target := VoteTarget(b.view, b.blockHash, b.parentHash);
      SignersSupport(d, log, target, votes, ActiveRoster(p, s));
      KeptAreGenuine(d, log, VoteMessage(target), votes, ActiveRoster(p, s));
      AdoptKeeps(d, me, log, s, qc.value);
      IndexKeeps(d, me, log, Adopt(s, qc.value), b.blockHash);
    }
  }

  lemma KeptAreGenuine(d: Deployment, log: Log, message: Message, votes: seq<Endorsement<Message>>, roster: Roster)
    requires forall i | 0 <= i < |votes| :: Genuine(d, log, votes[i])
    ensures forall i | 0 <= i < |Kept(message, votes, roster)| :: Genuine(d, log, Kept(message, votes, roster)[i])
  {
    KeptIsValidSigners(message, votes, roster);
    var kept := Kept(message, votes, roster);
    forall i | 0 <= i < |kept| ensures Genuine(d, log, kept[i]) {
      assert kept[i] in votes;
    }
  }

  lemma IndexKeeps(d: Deployment, me: NodeId, log: Log, s: State, h: Hash)
    requires NodeInv(d, me, log, s)
    ensures NodeInv(d, me, log, IndexCertifiedChild(s, h))
  {
  }

  lemma StoreKeeps(d: Deployment, me: NodeId, log: Log, s: State, b: Proposal)
    requires NodeInv(d, me, log, s) && b.blockHash == HashBlock(b)
    ensures NodeInv(d, me, log, StoreBlock(s, b).(activeProposal := Some(b)))
  {
    hide QCsBacked, VotesKept, CommitsFinal, BlocksFiled, ChildrenIndexed;
    var t := StoreBlock(s, b);
    StoreFiled(s, b);
    StoreIndexed(s.childIndex, s.blocks.Keys, t.blocks.Keys, s.qcByBlockHash.Keys);
  }

  lemma StoreFiled(s: State, b: Proposal)
    requires BlocksFiled(s.blocks, s.blockOrder, s.activeProposal) && b.blockHash == HashBlock(b)
    ensures var t := StoreBlock(s, b); BlocksFiled(t.blocks, t.blockOrder, Some(b))
  {
  }

  lemma StoreIndexed(index: map<Hash, Hash>, stored: set<Hash>, more: set<Hash>, certified: set<Hash>)
    requires ChildrenIndexed(index, stored, certified) && stored <= more
    ensures ChildrenIndexed(index, more, certified)
  {
  }

  lemma FileKeeps(d: Deployment, me: NodeId, log: Log, s: State, vc: ViewChange)
    requires NodeInv(d, me, log, s) && GenuineOption(d, log, vc.highestQC)
    ensures NodeInv(d, me, log, FileViewChange(s, vc))
  {
  }

  lemma ProposedKeeps(d: Deployment, me: NodeId, log: Log, s: State, view: int)
    requires d.Valid() && me in d.honest && NodeInv(d, me, log, s)
    ensures NodeInv(d, me, log, Proposed(ParamsOf(d, me), s, view))
  {
    hide NodeInv, SortTxs;
    var p := ParamsOf(d, me);
    if ProposeRefused(p, s, view).None? {
      var b := NewProposal(p, s, view);
      StoreKeeps(d, me, log, s, b);
      var stored := StoreBlock(s, b).(activeProposal := Some(b));
      assert Proposed(p, s, view) == stored.(view := Max(s.view, view), pendingTxs := [], pendingNonces := {});
      ViewKeeps(d, me, log, stored, Max(s.view, view));
    }
  }

  lemma ViewKeeps(d: Deployment, me: NodeId, log: Log, s: State, view: int)
    requires NodeInv(d, me, log, s) && view >= s.view
    ensures NodeInv(d, me, log, s.(view := view, pendingTxs := [], pendingNonces := {}))
  {
  }

  lemma TimedOutKeeps(d: Deployment, me: NodeId, log: Log, s: State)
    requires NodeInv(d, me, log, s) && ParamsOf(d, me).Valid()
    ensures NodeInv(d, me, log, TimedOut(ParamsOf(d, me), s))
  {
    FileKeeps(d, me, log, s, OwnViewChange(ParamsOf(d, me), s));
  }

  lemma AdoptedNewViewKeeps(d: Deployment, me: NodeId, log: Log, s: State, nv: NewView)
    requires d.Valid() && d.Sizes() && NodeInv(d, me, log, s) && GenuineOption(d, log, nv.anchorQC)
    ensures NodeInv(d, me, log, AdoptedNewView(ParamsOf(d, me), s, nv))
  {
    if nv.anchorQC.Some? && !RejectsAnchor(ParamsOf(d, me), s, nv) {
      VerifiedIsBacked(d, me, log, s, nv.anchorQC.value);
      AdoptKeeps(d, me, log, s, nv.anchorQC.value);
    }
  }

  lemma ProposedNewViewKeeps(d: Deployment, me: NodeId, log: Log, s: State, view: int)
    requires d.Valid() && d.Sizes() && me in d.honest && NodeInv(d, me, log, s)
    ensures NodeInv(d, me, log, ProposedNewView(ParamsOf(d, me), s, view))
  {
    var p := ParamsOf(d, me);
    var nv := AggregatedNewView(p, s, view);
    if view >= 0 && p.LeaderOf(view) == me && nv.Some? {
      var s1 := Aggregated(p, s, view);
      assert NodeInv(d, me, log, s1);
      AdoptedNewViewKeeps(d, me, log, s1, nv.value);
      if !RejectsAnchor(p, s1, nv.value) {
        ProposedKeeps(d, me, log, AdoptedNewView(p, s1, nv.value), view);
      }
    }
  }

  /** Commit soundness: what the child index leads to is a triple of certified blocks. */
  lemma CommittableIsFinal(d: Deployment, me: NodeId, log: Log, s: State, h: Hash)
    requires NodeInv(d, me, log, s) && Committable(s, h)
    ensures Final(d, log, h) && s.blocks[h].blockHash == h
  {
    var child := CertifiedChild(s, h).value;
    var grandchild := CertifiedChild(s, child.blockHash).value;
    assert HeadsTriple(d, log, h, child.blockHash, grandchild.blockHash);
  }

  lemma {:induction false} CommitAllKeeps(d: Deployment, me: NodeId, log: Log, s: State, bs: seq<Proposal>)
    requires NodeInv(d, me, log, s)
    requires forall b | b in bs :: Final(d, log, b.blockHash)
    ensures NodeInv(d, me, log, CommitAll(s, bs))
  {
    if bs != [] {
      CommitAllKeeps(d, me, log, s, bs[..|bs| - 1]);
    }
  }

  lemma CommitCheckedKeeps(d: Deployment, me: NodeId, log: Log, s: State)
    requires NodeInv(d, me, log, s)
    ensures NodeInv(d, me, log, CommitChecked(s))
  {
    var candidates := Candidates(s, s.blockOrder);
    forall b | b in SortByView(candidates)
      ensures Final(d, log, b.blockHash)
    {
      assert multiset(SortByView(candidates)) == multiset(candidates);
      assert b in multiset(SortByView(candidates)) && b in candidates;
      var h :| h in s.blockOrder && Committable(s, h) && b == s.blocks[h];
      CommittableIsFinal(d, me, log, s, h);
    }
    CommitAllKeeps(d, me, log, s, SortByView(candidates));
  }

  // ------------------------------------------------------------------ voting

  lemma AdoptJustifyKeeps(d: Deployment, me: NodeId, log: Log, s: State, b: Proposal)
    requires d.Valid() && d.Sizes() && NodeInv(d, me, log, s) && GenuineOption(d, log, b.justify)
    requires ParamsOf(d, me).Valid() && Admission(ParamsOf(d, me), s, b).None?
    ensures NodeInv(d, me, log, AdoptJustify(s, b))
  {
    if b.justify.Some? {
      VerifiedIsBacked(d, me, log, s, b.justify.value);
      AdoptKeeps(d, me, log, s, b.justify.value);
    }
  }

  /** The new vote obeys the three rules: its view is new, its parent is certified, and its parent
    extends the lock, hence everything ever locked. */
  lemma VoteIsLawful(d: Deployment, me: NodeId, log: Log, s: State, b: Proposal)
    requires Lawful(d, log) && me in d.honest
    requires VotesKept(me, log, s.view, s.votedViews, s.lock)
    requires b.parentHash in s.qcByBlockHash ==> Certified(d, log, b.parentHash)
    requires b.blockHash == HashBlock(b) && b.view >= s.view && b.view !in s.votedViews
    requires Extension(s, b).None?
    ensures Lawful(d, log + [Vote(me, b.blockHash)])
  {
    forall j | 0 <= j < |log| && log[j].node == me
      ensures log[j].block.content.view < b.view
      ensures log[j].block.content.parentHash != Genesis ==> Extends(b.parentHash, log[j].block.content.parentHash)
    {
      assert VoteKept(log[j], s.view, s.votedViews, s.lock);
      LockMovesUp(s, b, log[j]);
    }
    LawfulAppend(d, log, Vote(me, b.blockHash));
  }

  lemma CastVoteKeeps(d: Deployment, me: NodeId, log: Log, s: State, b: Proposal)
    requires NodeInv(d, me, log, s)
    requires b.blockHash == HashBlock(b) && b.view >= s.view && b.view >= 0
    requires Extension(s, b).None?
    ensures NodeInv(d, me, log + [Vote(me, b.blockHash)], CastVote(s, b))
  {
    var more := log + [Vote(me, b.blockHash)];
    QCsBackedMonotone(d, log, more, s);
    CommitsMonotone(d, log, more, s.committed);
    StoreKeeps(d, me, log, s, b);
    CastVoteKept(me, log, s, b);
  }

  lemma CastVoteKept(me: NodeId, log: Log, s: State, b: Proposal)
    requires VotesKept(me, log, s.view, s.votedViews, s.lock)
    requires b.blockHash == HashBlock(b) && b.view >= s.view && b.view >= 0
    requires Extension(s, b).None?
    ensures var s2 := CastVote(s, b);
            VotesKept(me, log + [Vote(me, b.blockHash)], s2.view, s2.votedViews, s2.lock)
  {
    var more, s2 := log + [Vote(me, b.blockHash)], CastVote(s, b);
    forall i | 0 <= i < |more| && more[i].node == me
      ensures VoteKept(more[i], s2.view, s2.votedViews, s2.lock)
    {
      if i < |log| {
        assert more[i] == log[i];
        LockMovesUp(s, b, log[i]);
      }
    }
  }

  lemma LockMovesUp(s: State, b: Proposal, v: Vote)
    requires VoteKept(v, s.view, s.votedViews, s.lock) && Extension(s, b).None? && b.view >= s.view
    requires s.lock.Some? ==> s.lock.value.blockHash != Genesis
    ensures var s2 := CastVote(s, b); VoteKept(v, s2.view, s2.votedViews, s2.lock)
  {
    if v.block.content.parentHash != Genesis {
      Ancestry.IsDescendantIsSound(s.blocks, b.parentHash, s.lock.value.blockHash);
      ExtendsTransitive(b.parentHash, s.lock.value.blockHash, v.block.content.parentHash);
    }
  }

  // ------------------------------------------------------------------ every reachable state

  lemma QuietStepKeeps(d: Deployment, log: Log, s: State, h: NodeId, c: Call)
    requires d.Valid() && d.Sizes() && h in d.honest && Deliverable(d, log, c) && !c.VoteOn?
    requires NodeInv(d, h, log, s) && ParamsOf(d, h).Valid()
    ensures NodeInv(d, h, log, After(ParamsOf(d, h), s, c))
  {
    hide QCsBacked, BlocksFiled, ChildrenIndexed, VotesKept, CommitsFinal, Deployment.Valid;
    var p := ParamsOf(d, h);
    match c
    case Propose(view) => ProposedKeeps(d, h, log, s, view);
    case CollectVotes(votes) => CollectedKeeps(d, h, log, s, votes);
    case CommitCheck => CommitCheckedKeeps(d, h, log, s);
    case Timeout => TimedOutKeeps(d, h, log, s);
    case ReceiveViewChange(vc) => FileKeeps(d, h, log, s, vc);
    case AggregateNewView(view) =>
    case AdoptNewView(nv) => AdoptedNewViewKeeps(d, h, log, s, nv);
    case ProposeNewView(view) => ProposedNewViewKeeps(d, h, log, s, view);
    case Expel(id) =>
    case Submit(tx) =>
  }

  lemma VoteStepKeeps(d: Deployment, log: Log, s: State, h: NodeId, b: Proposal)
    requires d.Valid() && d.Sizes() && h in d.honest && GenuineOption(d, log, b.justify)
    requires Lawful(d, log) && NodeInv(d, h, log, s) && ParamsOf(d, h).Valid()
    ensures var more := log + CastBy(ParamsOf(d, h), s, VoteOn(b));
            Lawful(d, more) && NodeInv(d, h, more, Voted(ParamsOf(d, h), s, b).0)
  {
    hide NodeInv, Lawful, Admission, Extension, CastVote, AdoptJustify, NodeState.Voted, GenuineOption;
    var p := ParamsOf(d, h);
    var s1, vote := AdoptJustify(s, b), [Vote(h, b.blockHash)];
    VotedCases(p, s, b);
    if Admission(p, s, b).Some? {
      assert log + [] == log;
    } else {
      AdoptJustifyKeeps(d, h, log, s, b);
      if Extension(s1, b).Some? {
        assert log + [] == log;
      } else {
        assert CastBy(p, s, VoteOn(b)) == vote;
        assert s1.view == s.view && s1.votedViews == s.votedViews by { AdoptJustifyFrame(s, b); }
        AcceptedVoteKeeps(d, h, log, s1, b);
      }
    }
  }

  lemma AdoptJustifyFrame(s: State, b: Proposal)
    ensures AdoptJustify(s, b).view == s.view && AdoptJustify(s, b).votedViews == s.votedViews
  {
  }

  lemma VotedCases(p: Params, s: State, b: Proposal)
    requires p.Valid()
    ensures Admission(p, s, b).Some? ==> Voted(p, s, b) == (s, Admission(p, s, b))
    ensures var s1 := AdoptJustify(s, b);
            Admission(p, s, b).None? ==> Voted(p, s, b) == if Extension(s1, b).Some? then (s1, Extension(s1, b)) else (CastVote(s1, b), None)
  {
  }

  lemma AcceptedVoteKeeps(d: Deployment, me: NodeId, log: Log, s: State, b: Proposal)
    requires Lawful(d, log) && me in d.honest && NodeInv(d, me, log, s)
    requires b.blockHash == HashBlock(b) && b.view >= s.view && b.view >= 0 && b.view !in s.votedViews
    requires Extension(s, b).None?
    ensures var more := log + [Vote(me, b.blockHash)];
            Lawful(d, more) && NodeInv(d, me, more, CastVote(s, b))
  {
    VoteIsLawful(d, me, log, s, b);
    CastVoteKeeps(d, me, log, s, b);
  }

  lemma StepKeepsInv(d: Deployment, s: Sys, s': Sys, h: NodeId, c: Call)
    requires d.Valid() && d.Sizes() && Inv(d, s) && StepOf(d, s, s', h, c)
    ensures Inv(d, s')
  {
    hide NodeInv, Lawful, Deployment.Valid;
    assert NodeInv(d, h, s.log, s.nodes[h]);
    if c.VoteOn? {
      VoteStepKeeps(d, s.log, s.nodes[h], h, c.proposal);
    } else {
      QuietStepKeeps(d, s.log, s.nodes[h], h, c);
      assert s.log + [] == s.log;
    }
    forall g | g in s'.nodes && g != h
      ensures NodeInv(d, g, s'.log, s'.nodes[g])
    {
      if s'.log != s.log {
        OtherNodeKeeps(d, g, s.log, Vote(h, c.proposal.blockHash), s.nodes[g]);
      }
    }
  }

  lemma InitInv(d: Deployment, s: Sys)
    requires Init(d, s)
    ensures Inv(d, s)
  {
  }

  /** Every state of every run satisfies the invariant: in particular its vote log is lawful and
    every block any honest node has committed is final. */
  lemma {:induction false} RunKeepsInv(d: Deployment, run: seq<Sys>, i: nat)
    requires d.Valid() && IsRun(d, run) && i < |run|
    ensures d.Sizes() && Inv(d, run[i])
  {
    hide NodeInv, Lawful, StepOf, Deployment.Valid;
    ValidSizes(d);
    if i == 0 {
      InitInv(d, run[0]);
    } else {
      RunKeepsInv(d, run, i - 1);
      assert StepAt(d, run, i - 1);
      var h, c :| StepOf(d, run[i - 1], run[i], h, c);
      StepKeepsInv(d, run[i - 1], run[i], h, c);
    }
  }

  // ------------------------------------------------------------------ main results

  /** Agreement: in every run with at most f faulty members, any two blocks committed by any two
    honest nodes, at any two times, lie on one parent chain; the one with the smaller view is the
    ancestor. */
  lemma Agreement(d: Deployment, run: seq<Sys>, i: nat, j: nat, g: NodeId, h: NodeId, a: Proposal, b: Proposal)
    requires d.Valid() && IsRun(d, run) && i <= j < |run|
    requires g in d.honest && h in d.honest
    requires g in run[i].nodes && a in run[i].nodes[g].committed
    requires h in run[j].nodes && b in run[j].nodes[h].committed
    ensures SameChain(a.blockHash, b.blockHash)
    ensures a.blockHash.Digest? && b.blockHash.Digest?
    ensures a.blockHash.content.view <= b.blockHash.content.view <==> Extends(b.blockHash, a.blockHash)
  {
    RunKeepsInv(d, run, i);
    RunKeepsInv(d, run, j);
    LogGrows(d, run, i, j);
    var k :| 0 <= k < |run[i].nodes[g].committed| && run[i].nodes[g].committed[k] == a;
    FinalMonotone(d, run[i].log, run[j].log, a.blockHash);
    FinalBlocksAgree(d, run[j].log, a.blockHash, b.blockHash);
    FinalBlocksInViewOrder(d, run[j].log, a.blockHash, b.blockHash);
  }

  lemma {:induction false} LogGrows(d: Deployment, run: seq<Sys>, i: nat, j: nat)
    requires d.Valid() && IsRun(d, run) && i <= j < |run|
    ensures run[i].log <= run[j].log
    decreases j - i
  {
    hide Step, Init, Deployment.Valid;
    if i < j {
      LogGrows(d, run, i, j - 1);
      assert StepAt(d, run, j - 1);
      StepGrows(d, run[j - 1], run[j]);
    }
  }

  lemma StepGrows(d: Deployment, s: Sys, s': Sys)
    requires d.Valid() && Step(d, s, s')
    ensures s.log <= s'.log
  {
    hide After, CastBy, Deployment.Valid;
  }

  /** In every reachable state every certificate a node holds names a real block, and views strictly
    increase along every parent link whose child is certified, although no step compares them. */
  lemma CertifiedViewsIncrease(d: Deployment, run: seq<Sys>, i: nat, h: NodeId, child: Hash)
    requires d.Valid() && IsRun(d, run) && i < |run| && h in d.honest && h in run[i].nodes
    requires child in run[i].nodes[h].qcByBlockHash
    ensures child.Digest? && run[i].nodes[h].qcByBlockHash[child].view == child.content.view
    ensures var parent := child.content.parentHash;
            parent != Genesis ==> parent.Digest? && parent.content.view < child.content.view
  {
    RunKeepsInv(d, run, i);
    ParentCertifiedInSmallerView(d, run[i].log, child);
  }

  /** Lock freezing on reachable states: if a certified block has its parent b1 and c is certified in
    a later view, whoever holds the two certificates, then c extends b1. */
  lemma CertificatesFreezeParents(d: Deployment, run: seq<Sys>, i: nat, g: NodeId, h: NodeId, b2: Hash, c: Hash)
    requires d.Valid() && IsRun(d, run) && i < |run|
    requires g in d.honest && g in run[i].nodes && b2 in run[i].nodes[g].qcByBlockHash
    requires h in d.honest && h in run[i].nodes && c in run[i].nodes[h].qcByBlockHash
    ensures b2.Digest? && c.Digest?
    ensures b2.content.view == c.content.view ==> b2 == c
    ensures b2.content.view < c.content.view && b2.content.parentHash != Genesis ==> Extends(c, b2.content.parentHash)
  {
    RunKeepsInv(d, run, i);
    if b2.content.view == c.content.view {
      OneCertifiedBlockPerView(d, run[i].log, b2, c);
    } else if b2.content.view < c.content.view && b2.content.parentHash != Genesis {
      LockFreezing(d, run[i].log, b2.content.parentHash, b2, c);
    }
  }

  /** From a certified block the ancestry test is exact: a stored ancestor, reached through stored
    blocks, is always recognised. The view guard and the step bound never reject a real one. */
  lemma AncestryExactFromCertified(d: Deployment, run: seq<Sys>, i: nat, h: NodeId, b: Hash, a: Hash)
    requires d.Valid() && IsRun(d, run) && i < |run| && h in d.honest && h in run[i].nodes
    requires b in run[i].nodes[h].qcByBlockHash && a != Genesis && a in run[i].nodes[h].blocks
    requires forall x | Ancestry.Between(b, x, a) :: x in run[i].nodes[h].blocks
    ensures IsDescendant(run[i].nodes[h].blocks, b, a) <==> Extends(b, a)
  {
    RunKeepsInv(d, run, i);
    var log, blocks := run[i].log, run[i].nodes[h].blocks;
    if IsDescendant(blocks, b, a) {
      Ancestry.IsDescendantIsSound(blocks, b, a);
    }
    if Extends(b, a) && b != a {
      forall x | Ancestry.Between(b, x, a)
        ensures x.Digest? && a.Digest? && a.content.view <= x.content.view
        ensures forall y | Ancestry.Between(x, y, a) && x != y :: y.Digest? && y.content.view < x.content.view
      {
        CertifiedAncestor(d, log, b, x);
        AncestorsCertifiedInSmallerViews(d, log, x, a);
        forall y | Ancestry.Between(x, y, a) && x != y ensures y.Digest? && y.content.view < x.content.view {
          CertifiedAncestor(d, log, x, y);
          AncestorsCertifiedInSmallerViews(d, log, x, y);
        }
      }
      assert Ancestry.GoodPath(blocks, b, a, blocks[a].view);
      Ancestry.IsDescendantExactly(blocks, b, a);
    }
  }

  lemma CertifiedAncestor(d: Deployment, log: Log, b: Hash, x: Hash)
    requires d.Sizes() && Lawful(d, log) && Certified(d, log, b) && Extends(b, x) && x.Digest?
    ensures Certified(d, log, x)
  {
    AncestorsCertifiedInSmallerViews(d, log, b, x);
  }
}
