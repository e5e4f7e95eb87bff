/** A run without any fault in which two views certify two children of genesis (phase5/vap-to.mjs): the
  votes of view 0 reach nobody until view 1, whose leader knows no certificate and builds on genesis again.
  The node that collects them late has learnt the later certificate by then, and takes the earlier one for
  its highest all the same. No node collects the votes for both children; ChildIndex.dfy proves it never does. */
module Forks {
  import opened Wrappers
  import opened Endorse
  import opened Blocks
  import opened NodeState
  import opened VoteLog
  import opened Protocol
  import opened Standing
  import opened Lockstep
  import opened LockstepRuns
  import Quorum

  /** A node that has seen no certificate and no transaction, and has voted in views below v only. */
  predicate Blank(s: State, v: int) {
    && s.view <= v && (forall w | w in s.votedViews :: w < v)
    && s.highestQC.None? && s.qcByBlockHash == map[] && s.childIndex == map[] && s.lock.None?
    && s.lastCommittedHash == Genesis && s.seenNonces == {} && s.expelled == {} && s.pendingTxs == []
  }

  /** What the leader of view v proposes without certificates and transactions. */
  function ChildOfGenesis(d: Deployment, v: nat): Proposal {
    var leader := Leader(d, v);
    var content := Content(v, leader, Genesis, []);
    Proposal(v, leader, Genesis, [], None,
             if leader in d.keys then SignedBy(d.keys[leader], ProposalMessage(content)) else Forged(0), Digest(content))
  }

  /** A blank node whose active proposal, stored too, is b. */
  predicate Holds(s: State, v: int, b: Proposal) {
    Blank(s, v) && s.activeProposal == Some(b) && b.blockHash in s.blocks && s.blocks[b.blockHash] == b
  }

  lemma BlankProposes(d: Deployment, s: State, v: nat)
    requires d.Valid() && Leader(d, v) in d.honest && Blank(s, v) && ParamsOf(d, Leader(d, v)).Valid()
    ensures Holds(Proposed(ParamsOf(d, Leader(d, v)), s, v), v, ChildOfGenesis(d, v))
  {
    var p := ParamsOf(d, Leader(d, v));
    assert p.LeaderOf(v) == p.me;
    assert SortTxs([]) == [];
    hide SortTxs;
    ProposedIs(p, s, v);
    assert NewProposal(p, s, v) == ChildOfGenesis(d, v);
  }

  lemma BlankVotes(d: Deployment, h: NodeId, s: State, v: nat)
    requires d.Valid() && ParamsOf(d, h).Valid() && Leader(d, v) in d.honest && Blank(s, v)
    ensures CastBy(ParamsOf(d, h), s, VoteOn(ChildOfGenesis(d, v))) == [Vote(h, ChildOfGenesis(d, v).blockHash)]
    ensures Holds(After(ParamsOf(d, h), s, VoteOn(ChildOfGenesis(d, v))), v + 1, ChildOfGenesis(d, v))
  {
    hide Admission, Extension, NodeState.Voted, Deployment.Valid, CastVote, AdoptJustify, Holds;
    var p, b := ParamsOf(d, h), ChildOfGenesis(d, v);
    BlankAccepts(d, h, s, v);
    VotedCases(p, s, b);
    BlankCasts(s, v, b);
  }

  lemma BlankAccepts(d: Deployment, h: NodeId, s: State, v: nat)
    requires d.Valid() && ParamsOf(d, h).Valid() && Leader(d, v) in d.honest && Blank(s, v)
    ensures var b := ChildOfGenesis(d, v);
            Admission(ParamsOf(d, h), s, b).None? && AdoptJustify(s, b) == s && Extension(s, b).None?
  {
    var p, b := ParamsOf(d, h), ChildOfGenesis(d, v);
    assert p.LeaderOf(v) == b.leader;
  }

  lemma BlankCasts(s: State, v: nat, b: Proposal)
    requires Blank(s, v) && b.view == v && b.parentHash == Genesis
    ensures Holds(CastVote(s, b), v + 1, b)
  {
  }

  lemma BlankCollects(d: Deployment, h: NodeId, s: State, v: int, b: Proposal, votes: seq<Endorsement<Message>>)
    requires Holds(s, v, b) && b.parentHash == Genesis && HoldsQuorum(d, b, votes)
    ensures var t, qc := Collected(ParamsOf(d, h), s, votes), QCFrom(d, b, votes);
            && Verified(d, Some(qc)) && t.highestQC == Some(qc) && t.qcByBlockHash == map[b.blockHash := qc]
            && t.childIndex == map[Genesis := b.blockHash]
  {
    hide ValidSigners, Kept;
    QuorumCertifies(d, b, votes);
    CollectsActive(d, h, s, b, votes);
  }

  lemma CollectsActive(d: Deployment, h: NodeId, s: State, b: Proposal, votes: seq<Endorsement<Message>>)
    requires s.activeProposal == Some(b) && s.expelled == {} && HoldsQuorum(d, b, votes)
    requires b.blockHash in s.blocks && s.blocks[b.blockHash] == b
    ensures Collected(ParamsOf(d, h), s, votes) ==
            Adopt(s, QCFrom(d, b, votes)).(childIndex := s.childIndex[b.parentHash := b.blockHash])
  {
    hide ValidSigners, Kept;
    VerifiedEverywhere(d, h, s, QCFrom(d, b, votes));
    assert CollectedQC(ParamsOf(d, h), s, votes) == Some(QCFrom(d, b, votes));
  }

  /** A blank node takes a certificate that verifies from a new view. */
  lemma BlankAdopts(d: Deployment, h: NodeId, s: State, v: int, w: int, qc: QC)
    requires Blank(s, v) && Verified(d, Some(qc))
    ensures AdoptedNewView(ParamsOf(d, h), s, NewView(w, Some(qc))) == Adopt(s, qc)
  {
    VerifiedEverywhere(d, h, s, qc);
  }

  // ------------------------------------------------------------------ the run

  lemma CallReachable(d: Deployment, s: Sys, h: NodeId, c: Call)
    requires d.Valid() && Reachable(d, s) && s.nodes.Keys == d.honest && h in d.honest && Deliverable(d, s.log, c)
    ensures ParamsOf(d, h).Valid() && StepOf(d, s, Called(d, s, h, c), h, c)
    ensures Reachable(d, Called(d, s, h, c)) && s.log <= Called(d, s, h, c).log
  {
    hide Reachable, Deployment.Valid, After, CastBy, Deliverable;
    ParamsValid(d, h);
    ReachableStep(d, s, Called(d, s, h, c), h, c);
  }

  ghost predicate AllBlank(d: Deployment, s: Sys, v: int) {
    s.nodes.Keys == d.honest && forall h | h in d.honest :: Blank(s.nodes[h], v)
  }

  /** All of these nodes have voted for the proposal of view v, and hold it. */
  ghost predicate Voters(d: Deployment, s: Sys, who: set<NodeId>, v: nat) {
    && s.nodes.Keys == d.honest && who <= d.honest
    && forall h | h in who :: Holds(s.nodes[h], v + 1, ChildOfGenesis(d, v)) && Vote(h, ChildOfGenesis(d, v).blockHash) in s.log
  }

  /** The leader of a view proposes and some nodes, itself among them, vote. */
  ghost function ProposedAndVoted(d: Deployment, s: Sys, v: nat, order: seq<NodeId>): Sys {
    Perform(d, Called(d, s, Leader(d, v), Protocol.Propose(v)), Each(order, VoteOn(ChildOfGenesis(d, v))))
  }

  lemma OneViewVotes(d: Deployment, s: Sys, v: nat, order: seq<NodeId>, who: set<NodeId>)
    requires d.Valid() && Reachable(d, s) && AllBlank(d, s, v) && Lists(order, who) && who <= d.honest
    requires Leader(d, v) in who
    ensures var s' := ProposedAndVoted(d, s, v, order);
            && Reachable(d, s') && s.log <= s'.log && Voters(d, s', who, v)
            && forall h | h in d.honest && h !in who :: s'.nodes[h] == s.nodes[h]
  {
    hide Reachable, Deployment.Valid, Blank, Holds, ChildOfGenesis, Leader, Perform, Lists, After, CastBy,
         OnceEach, Calling;
    var leader, b := Leader(d, v), ChildOfGenesis(d, v);
    CallReachable(d, s, leader, Protocol.Propose(v));
    var s1 := Called(d, s, leader, Protocol.Propose(v));
    LeaderHolds(d, s, v);
    var calls := Each(order, VoteOn(b));
    CallersAreEverybody(who, order, calls);
    VotesDeliverable(d, s1.log, order, b);
    PerformReachable(d, s1, calls);
    forall h | h in who
      ensures Holds(Perform(d, s1, calls).nodes[h], v + 1, b) && Vote(h, b.blockHash) in Perform(d, s1, calls).log
    {
      var k := EndsWithOwnCall(d, s1, who, calls, h);
      BlankVotes(d, h, s1.nodes[h], v);
    }
    forall h | h in d.honest && h !in who ensures Perform(d, s1, calls).nodes[h] == s.nodes[h] {
      OthersUntouched(d, s1, calls, h);
    }
  }

  lemma LeaderHolds(d: Deployment, s: Sys, v: nat)
    requires d.Valid() && AllBlank(d, s, v) && Leader(d, v) in d.honest
    ensures var s1 := Called(d, s, Leader(d, v), Protocol.Propose(v));
            && AllBlank(d, s1, v) && ChildOfGenesis(d, v).justify.None?
            && forall h | h in d.honest && h != Leader(d, v) :: s1.nodes[h] == s.nodes[h]
  {
    hide Deployment.Valid, Blank, Leader, Proposed;
    var leader := Leader(d, v);
    ParamsValid(d, leader);
    BlankProposes(d, s.nodes[leader], v);
  }

  lemma LaterBlank(d: Deployment, s: Sys, v: nat)
    requires Voters(d, s, d.honest, v)
    ensures AllBlank(d, s, v + 1)
  {
    hide Blank, ChildOfGenesis;
  }

  function Others(d: Deployment): (rest: seq<NodeId>)
    requires NoRepeats(d.roster)
    ensures forall h :: h in rest <==> h in d.roster && h != Leader(d, 0)
  {
    Without(d.roster, {Leader(d, 0)})
  }

  /** All have voted in view 0, and all but the leader of view 0 in view 1 as well. */
  ghost predicate Split(d: Deployment, s: Sys) {
    && s.nodes.Keys == d.honest && Leader(d, 0) in d.honest && Holds(s.nodes[Leader(d, 0)], 1, ChildOfGenesis(d, 0))
    && AllVotedFor(d, s.log, ChildOfGenesis(d, 0).blockHash) && Voters(d, s, d.honest - {Leader(d, 0)}, 1)
  }

  lemma SplitReachable(d: Deployment) returns (s: Sys)
    requires d.Valid() && AllHonest(d) && d.n >= 2
    ensures Reachable(d, s) && Split(d, s)
  {
    hide Reachable, Deployment.Valid, AllHonest, NoRepeats, Blank, Holds, ChildOfGenesis, Leader, Lists, Init,
         ProposedAndVoted, Others;
    var init := Beginning(d);
    StartIsReachable(d, init);
    BeginningIsBlank(d, init);
    TwoLeaders(d);
    RosterLists(d, d.honest);
    OthersListed(d);
    OneViewVotes(d, init, 0, d.roster, d.honest);
    var s2 := ProposedAndVoted(d, init, 0, d.roster);
    LaterBlank(d, s2, 0);
    OneViewVotes(d, s2, 1, Others(d), d.honest - {Leader(d, 0)});
    s := ProposedAndVoted(d, s2, 1, Others(d));
    VotesStay(d, s2.log, s.log, ChildOfGenesis(d, 0).blockHash);
  }

  lemma OthersListed(d: Deployment)
    requires AllHonest(d)
    ensures NoRepeats(d.roster) && Lists(Others(d), d.honest - {Leader(d, 0)})
  {
    hide Leader;
    assert forall h :: h in d.roster <==> h in d.Members();
  }

  lemma BeginningIsBlank(d: Deployment, s: Sys)
    requires Init(d, s)
    ensures AllBlank(d, s, 0)
  {
  }

  lemma VotesStay(d: Deployment, log: Log, more: Log, b: Hash)
    requires log <= more && AllVotedFor(d, log, b)
    ensures AllVotedFor(d, more, b)
  {
    forall h | h in d.honest ensures Vote(h, b) in more {
      var k :| 0 <= k < |log| && log[k] == Vote(h, b);
      assert more[k] == Vote(h, b);
    }
  }

  /** The votes of view 1, and those of view 0, are quorums that can be delivered. */
  lemma BothAreQuorums(d: Deployment, s: Sys)
    requires d.Valid() && AllHonest(d) && Quorum.Threshold(d.n, d.f) < d.n && Split(d, s)
    ensures HoldsQuorum(d, ChildOfGenesis(d, 0), VotesOf(d, d.roster, ChildOfGenesis(d, 0)))
    ensures HoldsQuorum(d, ChildOfGenesis(d, 1), VotesOf(d, Others(d), ChildOfGenesis(d, 1)))
    ensures Deliverable(d, s.log, CollectVotes(VotesOf(d, d.roster, ChildOfGenesis(d, 0))))
    ensures Deliverable(d, s.log, CollectVotes(VotesOf(d, Others(d), ChildOfGenesis(d, 1))))
  {
    hide HoldsQuorum, VotesOf, Holds, Deliverable, VoteOf, Leader, Without;
    RosterCount(d.roster);
    assert |d.honest - {Leader(d, 0)}| == d.n - 1;
    assert forall h :: h in d.roster <==> h in d.Members();
    VotesSuffice(d, d.honest, ChildOfGenesis(d, 0), VotesOf(d, d.roster, ChildOfGenesis(d, 0)));
    VotesSuffice(d, d.honest - {Leader(d, 0)}, ChildOfGenesis(d, 1), VotesOf(d, Others(d), ChildOfGenesis(d, 1)));
    SentVotesDeliverable(d, s.log, d.roster, ChildOfGenesis(d, 0));
    SentVotesDeliverable(d, s.log, Others(d), ChildOfGenesis(d, 1));
  }

  /** The leader of view 1 collects at once, and the leader of view 0 learns of it from a new view. */
  lemma LaterCertificateFirst(d: Deployment, s: Sys) returns (t: Sys)
    requires d.Valid() && AllHonest(d) && Quorum.Threshold(d.n, d.f) < d.n && d.n >= 2 && Split(d, s) && Reachable(d, s)
    ensures var a, b, b1 := Leader(d, 0), Leader(d, 1), ChildOfGenesis(d, 1);
            var qc := QCFrom(d, b1, VotesOf(d, Others(d), b1));
            && Reachable(d, t) && t.nodes.Keys == d.honest && s.log <= t.log && a in d.honest && b in d.honest && a != b
            && t.nodes[a] == Adopt(s.nodes[a], qc) && t.nodes[b].childIndex == map[Genesis := b1.blockHash]
  {
    hide HoldsQuorum, VotesOf, Deliverable, VoteOf, Without, Reachable, Deployment.Valid, Collected, QCFrom, Verified,
         AllHonest, Others, AllVotedFor, Leader, NoRepeats;
    ListedOnce(d);
    var b1 := ChildOfGenesis(d, 1);
    var votes, qc := VotesOf(d, Others(d), b1), QCFrom(d, b1, VotesOf(d, Others(d), b1));
    TwoLeaders(d);
    BothAreQuorums(d, s);
    CallReachable(d, s, Leader(d, 1), CollectVotes(votes));
    var s1 := Called(d, s, Leader(d, 1), CollectVotes(votes));
    BlankCollects(d, Leader(d, 1), s.nodes[Leader(d, 1)], 2, b1, votes);
    CertificateIsGenuine(d, s1, Leader(d, 1));
    assert s1.nodes[Leader(d, 1)].highestQC == Some(qc);
    BlankAdopts(d, Leader(d, 0), s1.nodes[Leader(d, 0)], 1, 1, qc);
    AnchorDeliverable(d, s1.log, 1, qc);
    CallReachable(d, s1, Leader(d, 0), AdoptNewView(NewView(1, Some(qc))));
    t := Called(d, s1, Leader(d, 0), AdoptNewView(NewView(1, Some(qc))));
  }

  lemma ListedOnce(d: Deployment)
    requires AllHonest(d)
    ensures NoRepeats(d.roster)
  {
  }

  lemma AnchorDeliverable(d: Deployment, log: Log, v: int, qc: QC)
    requires GenuineOption(d, log, Some(qc))
    ensures Deliverable(d, log, AdoptNewView(NewView(v, Some(qc))))
  {
  }

  /** Two views can certify two children of one parent, and collecting can lower the highest certificate:
    from a quorum and one more member on there is a run without any fault that ends with one node collecting
    the votes for one child of genesis while it already holds the certificate of another, later one. Each of
    two nodes has indexed the child it collected the votes for. */
  lemma TwoCertifiedChildren(d: Deployment) returns (s: Sys, s': Sys)
    requires d.Valid() && AllHonest(d) && Quorum.Threshold(d.n, d.f) < d.n
    ensures var a, b, b0, b1 := Leader(d, 0), Leader(d, 1), ChildOfGenesis(d, 0), ChildOfGenesis(d, 1);
      && Reachable(d, s) && Reachable(d, s') && StepOf(d, s, s', a, CollectVotes(VotesOf(d, d.roster, b0)))
      && b in s'.nodes && b0.blockHash != b1.blockHash && b0.parentHash == b1.parentHash == Genesis
      && b0.blockHash in s'.nodes[a].qcByBlockHash && b1.blockHash in s'.nodes[a].qcByBlockHash
      && s'.nodes[a].childIndex == map[Genesis := b0.blockHash] && s'.nodes[b].childIndex == map[Genesis := b1.blockHash]
      && HighestIn(s.nodes[a], 1) && HighestIn(s'.nodes[a], 0)
  {
    hide HoldsQuorum, VotesOf, Deliverable, VoteOf, Without, Reachable, Deployment.Valid, Collected, Verified,
         AllHonest, Others, Leader, ChildOfGenesis, AllVotedFor, Voters, StepOf, NoRepeats, CastBy;
    ListedOnce(d);
    var b0 := ChildOfGenesis(d, 0);
    Siblings(d);
    TwoLeaders(d);
    var split := SplitReachable(d);
    s := LaterCertificateFirst(d, split);
    BothAreQuorums(d, split);
    DeliverableLater(d, split.log, s.log, CollectVotes(VotesOf(d, d.roster, b0)));
    CallReachable(d, s, Leader(d, 0), CollectVotes(VotesOf(d, d.roster, b0)));
    CollectsActive(d, Leader(d, 0), s.nodes[Leader(d, 0)], b0, VotesOf(d, d.roster, b0));
    s' := Called(d, s, Leader(d, 0), CollectVotes(VotesOf(d, d.roster, b0)));
  }

  lemma Siblings(d: Deployment)
    ensures var b0, b1 := ChildOfGenesis(d, 0), ChildOfGenesis(d, 1);
            && b0.blockHash != b1.blockHash && b0.parentHash == b1.parentHash == Genesis && b0.view == 0 && b1.view == 1
  {
  }

  predicate HighestIn(s: State, v: int) {
    s.highestQC.Some? && s.highestQC.value.view == v
  }
}
