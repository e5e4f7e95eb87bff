/** Runs of lockstep views (phase5/vap-to.mjs). Without faults the views of Lockstep.dfy can be held one after
  the other, whatever clients send and whoever collects votes when. Three runs made of them mark limits of the
  code: after one, a node that voted for every block but collected no votes holds a certified triple that it
  never commits; after another, a node that joined in collecting late has committed the second block but not the
  first; after the third, all have committed one nonce twice, because a proposal is not checked against its
  uncommitted ancestors. */
module LockstepRuns {
  import opened Wrappers
  import opened Endorse
  import opened Blocks
  import opened NodeState
  import opened VoteLog
  import opened Protocol
  import opened Standing
  import opened Lockstep
  import Commit
  import Quorum

  // ------------------------------------------------------------------ such runs exist

  predicate NoRepeats(order: seq<NodeId>) {
    forall i, j | 0 <= i < j < |order| :: order[i] != order[j]
  }

  /** No faults: every member is honest and listed once. */
  predicate AllHonest(d: Deployment) {
    NoRepeats(d.roster) && d.honest == d.Members()
  }

  lemma {:induction false} RosterCount(roster: seq<NodeId>)
    requires NoRepeats(roster)
    ensures |set i | 0 <= i < |roster| :: roster[i]| == |roster|
  {
    if roster != [] {
      var init, last := roster[..|roster| - 1], roster[|roster| - 1];
      RosterCount(init);
      assert (set i | 0 <= i < |roster| :: roster[i]) == (set i | 0 <= i < |init| :: init[i]) + {last};
      assert last !in set i | 0 <= i < |init| :: init[i];
    }
  }

  lemma AllAreEnough(d: Deployment)
    requires d.Valid() && AllHonest(d)
    ensures EnoughHonest(d)
  {
    RosterCount(d.roster);
  }

  ghost predicate Lists(order: seq<NodeId>, who: set<NodeId>) {
    NoRepeats(order) && forall h :: h in order <==> h in who
  }

  /** The order without some nodes. */
  function Without(order: seq<NodeId>, left: set<NodeId>): (rest: seq<NodeId>)
    requires NoRepeats(order)
    ensures NoRepeats(rest) && forall h :: h in rest <==> h in order && h !in left
  {
    if order == [] then []
    else
      var init, last := order[..|order| - 1], order[|order| - 1];
      assert forall h :: h in order <==> h in init || h == last;
      if last in left then Without(init, left) else Without(init, left) + [last]
  }

  /** Some members in the order of the roster. */
  function InOrder(d: Deployment, who: set<NodeId>): seq<NodeId>
    requires NoRepeats(d.roster)
  {
    Without(d.roster, d.honest - who)
  }

  lemma RosterLists(d: Deployment, who: set<NodeId>)
    requires AllHonest(d) && who <= d.honest
    ensures NoRepeats(d.roster) && Lists(d.roster, d.honest) && Lists(InOrder(d, who), who)
  {
    assert forall h :: h in d.roster <==> h in d.Members();
  }

  lemma CallersAreEverybody(who: set<NodeId>, order: seq<NodeId>, calls: Calls)
    requires Lists(order, who) && |calls| == |order| && forall k | 0 <= k < |calls| :: calls[k].0 == order[k]
    ensures Everybody(who, calls)
  {
    forall h | h in who ensures Calling(calls, h) {
      var i :| 0 <= i < |order| && order[i] == h;
      assert calls[i].0 == h;
    }
    forall k | 0 <= k < |calls| ensures calls[k].0 in who {
      assert order[k] in order;
    }
  }

  lemma EverybodyCalls(d: Deployment, b: Proposal, who: set<NodeId>, order: seq<NodeId>)
    requires Lists(d.roster, d.honest) && Lists(order, who)
    ensures Everybody(d.honest, Each(d.roster, VoteOn(b))) && Everybody(d.honest, Each(d.roster, CommitCheck))
    ensures Everybody(who, Collections(FullBallots(d, order, b))) && Collectors(FullBallots(d, order, b)) == who
  {
    hide Everybody, Lists, VotesOf;
    CallersAreEverybody(d.honest, d.roster, Each(d.roster, VoteOn(b)));
    CallersAreEverybody(d.honest, d.roster, Each(d.roster, CommitCheck));
    CallersAreEverybody(who, order, Collections(FullBallots(d, order, b)));
    CollectorsListed(d, b, who, order);
  }

  lemma CollectorsListed(d: Deployment, b: Proposal, who: set<NodeId>, order: seq<NodeId>)
    requires Lists(order, who)
    ensures Collectors(FullBallots(d, order, b)) == who
  {
    hide VotesOf;
    var ballots := FullBallots(d, order, b);
    forall h ensures h in Collectors(ballots) <==> h in who {
      if h in who {
        var k :| 0 <= k < |order| && order[k] == h;
        assert ballots[k].0 == h;
      }
      if h in Collectors(ballots) {
        var k :| 0 <= k < |ballots| && ballots[k].0 == h;
        assert order[k] in order;
      }
    }
  }

  /** The votes of some members for b. */
  function VotesOf(d: Deployment, order: seq<NodeId>, b: Proposal): (votes: seq<Endorsement<Message>>)
    ensures |votes| == |order| && forall i | 0 <= i < |order| :: votes[i] == VoteOf(d, order[i], b)
    ensures forall h | h in order :: VoteOf(d, h, b) in votes
  {
    var votes := seq(|order|, i requires 0 <= i < |order| => VoteOf(d, order[i], b));
    assert forall i | 0 <= i < |order| :: votes[i] == VoteOf(d, order[i], b);
    votes
  }

  lemma AllVotesComplete(d: Deployment, log: Log, b: Proposal)
    requires AllHonest(d)
    ensures HoldsAllVotes(d, log, b, VotesOf(d, d.roster, b))
  {
    assert forall h | h in d.Members() :: h in d.roster;
  }

  lemma SentVotesDeliverable(d: Deployment, log: Log, order: seq<NodeId>, b: Proposal)
    requires d.Valid() && b.blockHash == HashBlock(b) && forall h | h in order :: Vote(h, b.blockHash) in log
    ensures Deliverable(d, log, CollectVotes(VotesOf(d, order, b)))
  {
    var votes := VotesOf(d, order, b);
    forall i | 0 <= i < |votes| ensures Genuine(d, log, votes[i]) {
      assert VoteTarget(b.view, b.blockHash, b.parentHash) == TargetOf(b.blockHash);
    }
  }

  lemma ListedHaveVoted(d: Deployment, log: Log, b: Hash)
    requires AllHonest(d) && AllVotedFor(d, log, b)
    ensures forall h | h in d.roster :: Vote(h, b) in log
  {
    assert forall h | h in d.roster :: h in d.Members();
  }

  /** Everyone in the order collects all votes. */
  function FullBallots(d: Deployment, order: seq<NodeId>, b: Proposal): (ballots: Ballots)
    ensures |ballots| == |order|
  {
    seq(|order|, k requires 0 <= k < |order| => (order[k], VotesOf(d, d.roster, b)))
  }

  lemma FullBallotsComplete(d: Deployment, log: Log, order: seq<NodeId>, b: Proposal)
    requires d.Valid() && AllHonest(d) && b.blockHash == HashBlock(b) && AllVotedFor(d, log, b.blockHash)
    ensures CompleteBallots(d, log, b, FullBallots(d, order, b))
  {
    hide Deliverable, HoldsAllVotes, VotesOf, AllHonest, Deployment.Valid, AllVotedFor;
    AllVotesComplete(d, log, b);
    ListedHaveVoted(d, log, b.blockHash);
    SentVotesDeliverable(d, log, d.roster, b);
  }

  lemma SubmissionsDeliverable(d: Deployment, log: Log, inbox: Inbox)
    ensures AllDeliverable(d, log, Submissions(inbox))
  {
  }

  lemma ProposeDeliverable(d: Deployment, log: Log, leader: NodeId, v: nat)
    ensures AllDeliverable(d, log, [(leader, Protocol.Propose(v))])
  {
  }

  lemma LastBlockHash(chain: seq<Proposal>)
    requires Linked(chain) && chain != []
    ensures chain[|chain| - 1].blockHash == HashBlock(chain[|chain| - 1])
  {
    assert LinkAt(chain, |chain| - 1);
  }

  lemma LeaderIsHonest(d: Deployment, v: nat)
    requires d.Valid() && AllHonest(d)
    ensures Leader(d, v) in d.honest && OnHonest(d, [(Leader(d, v), Protocol.Propose(v))])
  {
    assert d.roster[v % d.n] in d.Members();
  }

  /** A leader in step does propose. */
  lemma LeaderCanPropose(d: Deployment, took: Took, s: Sys, chain: seq<Proposal>) returns (s1: Sys, b: Proposal)
    requires d.Valid() && InStep(d, took, s, chain) && Leader(d, |chain|) in d.honest
    requires Leads(took, Leader(d, |chain|), |chain|)
    ensures Does(d, s, [(Leader(d, |chain|), Protocol.Propose(|chain|))], s1) && Active(s1, Leader(d, |chain|), b)
  {
    hide Deployment.Valid, Leader, NodeInStep, Proposed, Proposing, Perform, SortTxs, Linked, Nonces, NextProposal,
         NewProposal, OnHonest, Learnt, TookBy, Leads;
    var leader := Leader(d, |chain|);
    ParamsValid(d, leader);
    LeaderHasLearnt(took, leader, |chain|);
    LeaderPacks(d, leader, s.nodes[leader], chain, TookBy(took, leader));
    ProposeCalled(d, s, leader, |chain|);
    AloneIsHonest(d, leader, Protocol.Propose(|chain|));
    s1 := Perform(d, s, [(leader, Protocol.Propose(|chain|))]);
    b := NewProposal(ParamsOf(d, leader), s.nodes[leader], |chain|);
  }

  lemma OpeningCanBeHeld(d: Deployment, took: Took, s: Sys, chain: seq<Proposal>, inbox: Inbox)
    returns (s1: Sys, s2: Sys, b: Proposal)
    requires d.Valid() && AllHonest(d) && Reachable(d, s) && InStep(d, took, s, chain)
    requires OnHonest(d, Submissions(inbox))
    requires Leads(took, Leader(d, |chain|), |chain|) && Unspent(Perform(d, s, Submissions(inbox)), Leader(d, |chain|))
    ensures Does(d, s, Submissions(inbox), s1)
    ensures Does(d, s1, [(Leader(d, |chain|), Protocol.Propose(|chain|))], s2) && Active(s2, Leader(d, |chain|), b)
    ensures Reachable(d, s2) && InStep(d, took, Packed(s1, Leader(d, |chain|)), chain) && NextProposal(d, chain, b)
    ensures AllProposing(d, took, s2, Packed(s1, Leader(d, |chain|)), chain, b) && GenuineOption(d, s2.log, b.justify)
    ensures FreshToAll(Packed(s1, Leader(d, |chain|)), b)
  {
    hide Reachable, Perform, Deployment.Valid, AllHonest, Leader, NodeInStep, NextProposal, AllProposing, Packed,
         SortTxs, Linked, Unspent, OnHonest, GenuineOption, AllDeliverable, Submissions, Active, FreshToAll, Leads;
    var leader := Leader(d, |chain|);
    s1 := Perform(d, s, Submissions(inbox));
    SubmissionsKeep(d, took, s, chain, inbox);
    SubmissionsDeliverable(d, s.log, inbox);
    DoesReachable(d, s, Submissions(inbox), s1);
    LeaderIsHonest(d, |chain|);
    s2, b := LeaderCanPropose(d, took, s1, chain);
    ProposePhase(d, took, s1, chain, s2, b);
    PackedInStep(d, took, s1, chain, leader);
    UnspentIsFresh(d, took, s1, chain, leader, b);
    CertificateIsGenuine(d, s1, leader);
    ProposeDeliverable(d, s1.log, leader, |chain|);
    DoesReachable(d, s1, [(leader, Protocol.Propose(|chain|))], s2);
  }

  lemma RestCanBeHeld(d: Deployment, took: Took, base: Sys, s2: Sys, chain: seq<Proposal>, b: Proposal,
                      who: set<NodeId>, order: seq<NodeId>)
    returns (s3: Sys, s4: Sys, s5: Sys)
    requires d.Valid() && AllHonest(d) && Reachable(d, s2) && InStep(d, took, base, chain) && NextProposal(d, chain, b)
    requires AllProposing(d, took, s2, base, chain, b) && GenuineOption(d, s2.log, b.justify) && FreshToAll(base, b)
    requires Lists(d.roster, d.honest) && Lists(order, who) && who <= d.honest
    ensures Does(d, s2, Each(d.roster, VoteOn(b)), s3) && Everybody(d.honest, Each(d.roster, VoteOn(b)))
    ensures Does(d, s3, Collections(FullBallots(d, order, b)), s4) && OnceEach(Collections(FullBallots(d, order, b)))
    ensures CompleteBallots(d, s3.log, b, FullBallots(d, order, b)) && Collectors(FullBallots(d, order, b)) == who
    ensures Does(d, s4, Each(d.roster, CommitCheck), s5) && Everybody(d.honest, Each(d.roster, CommitCheck))
  {
    hide Reachable, Perform, Deployment.Valid, AllHonest, InStep, NextProposal, AllProposing, AllVoted, AllCertified,
         Linked, Everybody, Does, GenuineOption, AllVotedFor, Each, Collections, FullBallots, CompleteBallots, Inv,
         EnoughHonest, FreshToAll, Lists, OnceEach, Taken, Collectors;
    EverybodyCalls(d, b, who, order);
    EverybodyOnce(who, Collections(FullBallots(d, order, b)));
    AllAreEnough(d);
    KeysOf(d, took, s2, base, chain, b);
    s3 := AllDo(d, s2, d.honest, Each(d.roster, VoteOn(b)));
    VotingMovesOn(d, took, base, s2, chain, b, d.roster, s3);
    LastBlock(d, chain, b);
    LastBlockHash(chain + [b]);
    FullBallotsComplete(d, s3.log, order, b);
    s4 := AllDo(d, s3, who, Collections(FullBallots(d, order, b)));
    CollectingMovesOn(d, took, base, s3, chain, b, FullBallots(d, order, b), s4);
    s5 := AllDo(d, s4, d.honest, Each(d.roster, CommitCheck));
  }

  lemma EverybodyOnce(who: set<NodeId>, calls: Calls)
    requires Everybody(who, calls)
    ensures OnceEach(calls)
  {
  }

  lemma AllDo(d: Deployment, s: Sys, who: set<NodeId>, calls: Calls) returns (s': Sys)
    requires s.nodes.Keys == d.honest && Everybody(who, calls) && who <= d.honest
    ensures Does(d, s, calls, s')
  {
    s' := Perform(d, s, calls);
  }

  lemma KeysOf(d: Deployment, took: Took, s: Sys, base: Sys, chain: seq<Proposal>, b: Proposal)
    requires AllProposing(d, took, s, base, chain, b)
    ensures s.nodes.Keys == d.honest
  {
  }

  /** Whatever the clients send to honest nodes, and whoever is to collect the votes, as long as the leader's
    mempool stays unspent the lockstep view can be held. */
  lemma RoundCanBeHeld(d: Deployment, took: Took, s: Sys, chain: seq<Proposal>, inbox: Inbox, who: set<NodeId>)
    returns (turn: Turn, c: Course)
    requires d.Valid() && AllHonest(d) && Reachable(d, s) && InStep(d, took, s, chain)
    requires OnHonest(d, Submissions(inbox))
    requires Leads(took, Leader(d, |chain|), |chain|) && Unspent(Perform(d, s, Submissions(inbox)), Leader(d, |chain|))
    requires who <= d.honest
    ensures turn.inbox == inbox && Collectors(turn.ballots) == who && IsRound(d, |chain|, turn, s, c)
    ensures c.submitted == Perform(d, s, Submissions(inbox))
  {
    hide Reachable, Perform, Deployment.Valid, Leader, InStep, NextProposal, AllProposing, Packed, Unspent, Active,
         Everybody, GenuineOption, Each, Collections, FullBallots, Submissions, CompleteBallots, FreshToAll, Lists,
         AllHonest, NoRepeats, InOrder, OnceEach, Collectors, Leads, OnHonest;
    RosterLists(d, who);
    var s1, s2, b := OpeningCanBeHeld(d, took, s, chain, inbox);
    var order := InOrder(d, who);
    var s3, s4, s5 := RestCanBeHeld(d, took, Packed(s1, Leader(d, |chain|)), s2, chain, b, who, order);
    turn := Turn(inbox, d.roster, FullBallots(d, order, b), d.roster);
    c := Course(s1, s2, b, s3, s4, s5);
  }

  /** The leader of the next view has collected the votes of the last one. */
  predicate NextLeaderReady(d: Deployment, turns: seq<Turn>) {
    turns == [] || Leader(d, |turns|) in Collectors(turns[|turns| - 1].ballots)
  }

  /** Without faults every lockstep run can go on by a view, with any fresh transactions and anybody to collect
    its votes; so lockstep runs of every length and shape exist. */
  lemma LockstepGoesOn(d: Deployment, init: Sys, turns: seq<Turn>, courses: seq<Course>, inbox: Inbox, who: set<NodeId>)
    returns (turn: Turn, c: Course)
    requires d.Valid() && AllHonest(d) && IsLockstep(d, init, turns, courses) && NextLeaderReady(d, turns)
    requires who <= d.honest
    requires OnHonest(d, Submissions(inbox)) && FreshTxs({}, Sent(turns)) && FreshTxs(Nonces(Sent(turns)), TxsOf(inbox))
    ensures turn.inbox == inbox && Collectors(turn.ballots) == who && IsLockstep(d, init, turns + [turn], courses + [c])
    ensures FreshTxs({}, Sent(turns + [turn]))
  {
    hide Reachable, Deployment.Valid, AllHonest, Leader, IsRound, IsLockstep, InStep, AllUnspent, FreshTxs,
         Nonces, ChainNonces, Apart, OnHonest, Submissions, EnoughHonest, Collectors, TookAt, Leads;
    var k := |courses|;
    Lengths(d, init, turns, courses);
    AllAreEnough(d);
    StaysApart(d, init, turns, courses, k);
    assert turns[..k] == turns;
    NextLeads(d, turns);
    turn, c := FreshRound(d, TookAt(d, turns, k), SysAt(init, courses, k), BlocksOf(courses[..k]), inbox, who, Nonces(Sent(turns)));
    SentPush(turns, turn);
    FreshConcat(Sent(turns), TxsOf(inbox));
    LongerRun(d, init, turns, courses, turn, c);
  }

  lemma NextLeads(d: Deployment, turns: seq<Turn>)
    requires d.Valid() && AllHonest(d) && NextLeaderReady(d, turns)
    ensures Leads(TookAt(d, turns, |turns|), Leader(d, |turns|), |turns|)
  {
    hide Collectors, Leader, Deployment.Valid, AllHonest;
    LeaderIsHonest(d, |turns|);
    if turns != [] {
      TookIff(d, turns, |turns|, Leader(d, |turns|), |turns| - 1);
    }
  }

  lemma LongerRun(d: Deployment, init: Sys, turns: seq<Turn>, courses: seq<Course>, turn: Turn, c: Course)
    requires IsLockstep(d, init, turns, courses) && NextLeaderReady(d, turns)
    requires IsRound(d, |courses|, turn, SysAt(init, courses, |courses|), c)
    ensures IsLockstep(d, init, turns + [turn], courses + [c])
  {
    hide IsRound, Init, Collectors, Leader;
    forall j | 0 <= j < |courses + [c]| ensures RoundAt(d, init, turns + [turn], courses + [c], j) {
      if j < |courses| {
        assert RoundAt(d, init, turns, courses, j);
      }
    }
  }

  lemma SentPush(turns: seq<Turn>, turn: Turn)
    ensures Sent(turns + [turn]) == Sent(turns) + TxsOf(turn.inbox)
  {
    assert (turns + [turn])[..|turns|] == turns;
  }

  lemma FreshRound(d: Deployment, took: Took, s: Sys, chain: seq<Proposal>, inbox: Inbox, who: set<NodeId>,
                   sent: set<string>)
    returns (turn: Turn, c: Course)
    requires d.Valid() && AllHonest(d) && Reachable(d, s) && InStep(d, took, s, chain)
    requires OnHonest(d, Submissions(inbox))
    requires Apart(s.nodes, ChainNonces(chain), sent) && FreshTxs(sent, TxsOf(inbox)) && who <= d.honest
    requires Leads(took, Leader(d, |chain|), |chain|)
    ensures turn.inbox == inbox && Collectors(turn.ballots) == who && IsRound(d, |chain|, turn, s, c)
  {
    hide Reachable, Perform, Deployment.Valid, AllHonest, Leader, NodeInStep, Linked, Unspent, FreshTxs, Nonces,
         ChainNonces, Apart, Submissions, IsRound, Leads, Collectors;
    SubmissionsKeep(d, took, s, chain, inbox);
    SubmissionsApart(d, s, inbox, ChainNonces(chain), sent);
    LeaderIsHonest(d, |chain|);
    ApartIsUnspent(d, took, Perform(d, s, Submissions(inbox)), chain, Leader(d, |chain|), sent + Nonces(TxsOf(inbox)));
    turn, c := RoundCanBeHeld(d, took, s, chain, inbox, who);
  }

  /** Lockstep views in which clients send nothing, with given collectors. */
  lemma {:induction false} IdleRun(d: Deployment, who: seq<set<NodeId>>)
    returns (init: Sys, turns: seq<Turn>, courses: seq<Course>)
    requires d.Valid() && AllHonest(d) && forall j | 0 <= j < |who| :: who[j] <= d.honest
    requires forall j | 0 < j < |who| :: Leader(d, j) in who[j - 1]
    ensures IsLockstep(d, init, turns, courses) && |courses| == |turns| == |who| && FreshTxs({}, Sent(turns))
    ensures forall j | 0 <= j < |who| :: Collectors(turns[j].ballots) == who[j]
  {
    hide Deployment.Valid, AllHonest, Leader, IsLockstep, Sent, Collectors, FreshTxs, Nonces;
    if who == [] {
      init, turns, courses := Beginning(d), [], [];
      NoViews(d);
    } else {
      var k := |who| - 1;
      init, turns, courses := IdleRun(d, who[..k]);
      NothingFresh(d, Nonces(Sent(turns)));
      assert k > 0 ==> Leader(d, k) in who[k - 1];
      var turn, c := LockstepGoesOn(d, init, turns, courses, [], who[k]);
      turns, courses := turns + [turn], courses + [c];
    }
  }

  lemma NoViews(d: Deployment)
    ensures IsLockstep(d, Beginning(d), [], []) && FreshTxs({}, Sent([]))
  {
  }

  function Beginning(d: Deployment): (init: Sys)
    ensures Init(d, init)
  {
    Sys(map h | h in d.honest :: InitialState, [])
  }

  lemma NothingFresh(d: Deployment, used: set<string>)
    ensures OnHonest(d, Submissions([])) && FreshTxs(used, TxsOf([]))
  {
  }

  // ------------------------------------------------------------------ a triple that is not committed

  /** On top of every block but the last three every node in step holds a certified triple. It has committed the
    block exactly if it collected the votes for the second and the third of them itself; otherwise a scan of all
    blocks would find it, and the commit check does not. */
  lemma TripleMissedIff(d: Deployment, took: Took, s: Sys, chain: seq<Proposal>, h: NodeId, i: nat)
    requires InStep(d, took, s, chain) && h in s.nodes && i + 3 < |chain|
    ensures chain[i].blockHash in s.nodes[h].committedHashes <==> Ripe(TookBy(took, h), i)
    ensures Commit.FullScan(s.nodes[h], chain[i].blockHash) <==> !Ripe(TookBy(took, h), i)
    ensures !Committable(s.nodes[h], chain[i].blockHash)
  {
    hide NodeInStep, Ripe, Linked, TookBy;
    NodeMissesIff(d, s.nodes[h], chain, TookBy(took, h), i);
  }

  lemma NodeMissesIff(d: Deployment, s: State, chain: seq<Proposal>, took: set<nat>, i: nat)
    requires Linked(chain) && NodeInStep(d, s, chain, took) && i + 3 < |chain|
    ensures chain[i].blockHash in s.committedHashes <==> Ripe(took, i)
    ensures Commit.FullScan(s, chain[i].blockHash) <==> !Ripe(took, i)
    ensures !Committable(s, chain[i].blockHash)
  {
    hide VotedUpTo, PoolKept, Verified, Picks, IndexedBy, Ripe, StoredUpTo, CertifiedUpTo, Linked, Committable,
         Commit.CertifiedChildOf;
    PickedIff(chain, took, Settled(|chain|), i);
    HoldsChild(s, chain, Learnt(|chain|, took), i);
    HoldsChild(s, chain, Learnt(|chain|, took), i + 1);
    if Ripe(took, i) {
      DoneNotCommittable(s, chain[i].blockHash);
    } else {
      NotRipeNotCommittable(s, chain, took, i);
    }
  }

  lemma DoneNotCommittable(s: State, x: Hash)
    requires x in s.committedHashes
    ensures !Committable(s, x)
  {
  }

  lemma HoldsChild(s: State, chain: seq<Proposal>, certified: nat, i: nat)
    requires Linked(chain) && i + 1 < certified <= |chain| && StoredUpTo(s.blocks, chain, |chain|)
    requires CertifiedUpTo(s, chain, certified)
    ensures chain[i].blockHash in s.blocks && chain[i].blockHash in s.qcByBlockHash
    ensures Commit.CertifiedChildOf(s, chain[i].blockHash, chain[i + 1].blockHash)
  {
    assert StoredAt(s.blocks, chain, i) && StoredAt(s.blocks, chain, i + 1);
    assert chain[i].blockHash in Prefix(chain, certified) && chain[i + 1].blockHash in Prefix(chain, certified);
    HashesDiffer(chain, i + 1, i + 1);
  }

  lemma NotRipeNotCommittable(s: State, chain: seq<Proposal>, took: set<nat>, i: nat)
    requires Linked(chain) && i + 1 < |chain| && Below(took, |chain|) && !Ripe(took, i)
    requires StoredUpTo(s.blocks, chain, |chain|) && IndexedBy(s.childIndex, chain, took)
    ensures !Committable(s, chain[i].blockHash)
  {
    hide IndexedBy, StoredUpTo;
    ChildAt(s, chain, took, i);
    ChildAt(s, chain, took, i + 1);
  }

  /** The commit rule is not "committed exactly if it heads three certified blocks": from four members on there is
    a run, without any fault, after which everybody has committed the first two blocks but for one member, which
    holds the certified triple on top of the first one, has committed nothing, and does not with another check.
    It has voted for every block and learnt every certificate, but collected no votes. */
  lemma MissedTriple(d: Deployment) returns (init: Sys, turns: seq<Turn>, courses: seq<Course>)
    requires d.Valid() && AllHonest(d) && d.n >= 4
    ensures IsLockstep(d, init, turns, courses) && |courses| == 4 && Reachable(d, courses[3].checked)
    ensures MissesTriple(d, courses[3].checked, courses[0].block, courses[1].block)
  {
    hide *;
    var me := Leader(d, 0);
    var others := d.honest - {me};
    LeadersOf(d);
    init, turns, courses := IdleRun(d, [others, others, others, others]);
    AllAreEnough(d);
    DistinctNoncesProgress(d, init, turns, courses, 4);
    EndOfFour(init, courses);
    MissedAt(d, init, turns, courses);
  }

  lemma EndOfFour(init: Sys, courses: seq<Course>)
    requires |courses| == 4
    ensures SysAt(init, courses, 4) == courses[3].checked
  {
  }

  /** The leader of view 0 holds a triple on top of b0 and has committed nothing; the others have b0 and b1. */
  ghost predicate MissesTriple(d: Deployment, s: Sys, b0: Proposal, b1: Proposal) {
    && s.nodes.Keys == d.honest && Leader(d, 0) in d.honest
    && (forall h | h in d.honest && h != Leader(d, 0) :: s.nodes[h].committed == [b0, b1])
    && var me := s.nodes[Leader(d, 0)];
       Commit.FullScan(me, b0.blockHash) && !Committable(me, b0.blockHash) && me.committed == []
  }

  lemma LeadersOf(d: Deployment)
    requires d.Valid() && AllHonest(d) && d.n >= 3
    ensures forall j | 0 <= j :: Leader(d, j) in d.honest
    ensures Leader(d, 1) != Leader(d, 0) && Leader(d, 2) != Leader(d, 0) && (d.n >= 4 ==> Leader(d, 3) != Leader(d, 0))
  {
    hide Deployment.Valid;
    forall j | 0 <= j ensures Leader(d, j) in d.honest {
      LeaderIsHonest(d, j);
    }
    LeaderAt(d, 0);
    LeaderAt(d, 1);
    LeaderAt(d, 2);
    if d.n >= 4 {
      LeaderAt(d, 3);
    }
    RosterLength(d);
  }

  lemma RosterLength(d: Deployment)
    requires d.Valid()
    ensures |d.roster| == d.n
  {
  }

  lemma LeaderAt(d: Deployment, v: nat)
    requires d.Valid() && v < d.n
    ensures |d.roster| == d.n && Leader(d, v) == d.roster[v]
  {
    hide AllHonest, Deployment.Members;
    SmallMod(v, d.n);
  }

  lemma SmallMod(v: nat, n: nat)
    requires v < n
    ensures v % n == v
  {
  }

  lemma MissedAt(d: Deployment, init: Sys, turns: seq<Turn>, courses: seq<Course>)
    requires |courses| == |turns| == 4 && Leader(d, 0) in d.honest
    requires InStepAt(d, init, turns, courses, 4)
    requires AllCommitted(d, TookAt(d, turns, 4), SysAt(init, courses, 4), BlocksOf(courses[..4]))
    requires forall j | 0 <= j < 4 :: Collectors(turns[j].ballots) == d.honest - {Leader(d, 0)}
    ensures MissesTriple(d, courses[3].checked, courses[0].block, courses[1].block)
  {
    hide Linked, Commit.FullScan, NodeInStep, Picks, TookAt, Committable, Leader;
    var s, me, chain := courses[3].checked, Leader(d, 0), BlocksOf(courses[..4]);
    assert courses[..4] == courses;
    forall h | h in d.honest ensures forall i: nat :: i in TookBy(TookAt(d, turns, 4), h) <==> i < 4 && h != me {
      forall i: nat ensures i in TookBy(TookAt(d, turns, 4), h) <==> i < 4 && h != me {
        TookIff(d, turns, 4, h, i);
      }
    }
    TripleMissedIff(d, TookAt(d, turns, 4), s, chain, me, 0);
    assert TookBy(TookAt(d, turns, 4), me) == {};
    NonePicked(chain, 2);
    forall h | h in d.honest && h != me ensures s.nodes[h].committed == [courses[0].block, courses[1].block] {
      AllPicked(chain, TookBy(TookAt(d, turns, 4), h), 2);
      assert chain[..2] == [courses[0].block, courses[1].block];
    }
  }

  // ------------------------------------------------------------------ a gap

  /** Committed blocks need not form a prefix of the chain: from three members on there is a run, without any fault,
    after which one member, which did not collect the votes of the first two views, has committed the second
    block and not the first, while all others have committed both. */
  lemma CommitsWithGap(d: Deployment) returns (init: Sys, turns: seq<Turn>, courses: seq<Course>)
    requires d.Valid() && AllHonest(d) && d.n >= 3
    ensures IsLockstep(d, init, turns, courses) && |courses| == 4 && Reachable(d, courses[3].checked)
    ensures courses[1].block.parentHash == courses[0].block.blockHash
    ensures HasGap(d, courses[3].checked, courses[0].block, courses[1].block)
  {
    hide *;
    var me := Leader(d, 0);
    var others := d.honest - {me};
    LeadersOf(d);
    init, turns, courses := IdleRun(d, [others, others, d.honest, d.honest]);
    AllAreEnough(d);
    DistinctNoncesProgress(d, init, turns, courses, 4);
    EndOfFour(init, courses);
    GapAt(d, init, turns, courses);
  }

  /** The leader of view 0 has committed b1 only, the others b0 and b1. */
  predicate HasGap(d: Deployment, s: Sys, b0: Proposal, b1: Proposal) {
    && s.nodes.Keys == d.honest && Leader(d, 0) in d.honest
    && forall h | h in d.honest :: s.nodes[h].committed == if h == Leader(d, 0) then [b1] else [b0, b1]
  }

  lemma GapAt(d: Deployment, init: Sys, turns: seq<Turn>, courses: seq<Course>)
    requires |courses| == |turns| == 4 && Leader(d, 0) in d.honest
    requires AllCommitted(d, TookAt(d, turns, 4), SysAt(init, courses, 4), BlocksOf(courses[..4]))
    requires forall j | 0 <= j < 4 :: Collectors(turns[j].ballots) == if j < 2 then d.honest - {Leader(d, 0)} else d.honest
    ensures courses[1].block.parentHash == courses[0].block.blockHash
    ensures HasGap(d, courses[3].checked, courses[0].block, courses[1].block)
  {
    hide TookAt, Leader, Picks, Collectors;
    var s, me, chain := courses[3].checked, Leader(d, 0), BlocksOf(courses[..4]);
    assert courses[..4] == courses;
    assert LinkAt(chain, 1);
    forall h | h in d.honest ensures s.nodes[h].committed == if h == me then [chain[1]] else [chain[0], chain[1]] {
      var took := TookBy(TookAt(d, turns, 4), h);
      TookIff(d, turns, 4, h, 1);
      TookIff(d, turns, 4, h, 2);
      TookIff(d, turns, 4, h, 3);
      FirstTwo(chain, took);
    }
  }

  /** A node that collected the votes for blocks 2 and 3 can commit block 1, and block 0 if also those for block 1. */
  lemma FirstTwo(chain: seq<Proposal>, took: set<nat>)
    requires |chain| >= 2 && 2 in took && 3 in took
    ensures Picks(chain, took, 2) == if 1 in took then [chain[0], chain[1]] else [chain[1]]
  {
    assert Picks(chain, took, 0) == [];
    assert Picks(chain, took, 1) == if 1 in took then [chain[0]] else [];
  }

  // ------------------------------------------------------------------ a nonce committed twice

  /** Before the first commit nothing is spent. */
  lemma EarlyIsUnspent(d: Deployment, took: Took, s: Sys, chain: seq<Proposal>, leader: NodeId)
    requires InStep(d, took, s, chain) && |chain| <= 2 && leader in s.nodes
    ensures Unspent(s, leader)
  {
    hide Linked, Stands, IndexedBy, PoolKept, Verified;
    forall h | h in s.nodes ensures UnspentAt(s, leader, h) {
      assert NodeInStep(d, s.nodes[h], chain, TookBy(took, h));
      assert Picks(chain, TookBy(took, h), 0) == [];
      NoChainNonces();
    }
  }

  lemma NoChainNonces()
    ensures ChainNonces([]) == {}
  {
  }

  lemma EmptyIsUnspent(s: Sys, leader: NodeId)
    requires NoPools(s) && leader in s.nodes
    ensures Unspent(s, leader)
  {
    assert EmptyPool(s.nodes[leader]);
  }

  /** A lockstep run in which everybody collects has kept everybody in step. */
  ghost predicate Held(d: Deployment, init: Sys, turns: seq<Turn>, courses: seq<Course>) {
    && IsLockstep(d, init, turns, courses) && NextLeaderReady(d, turns)
    && Reachable(d, SysAt(init, courses, |courses|)) && InStepAt(d, init, turns, courses, |courses|)
  }

  lemma HeldLonger(d: Deployment, init: Sys, turns: seq<Turn>, courses: seq<Course>, turn: Turn, c: Course)
    requires d.Valid() && AllHonest(d) && Held(d, init, turns, courses) && Collectors(turn.ballots) == d.honest
    requires IsRound(d, |courses|, turn, SysAt(init, courses, |courses|), c)
    requires Unspent(c.submitted, Leader(d, |courses|))
    ensures Held(d, init, turns + [turn], courses + [c])
    ensures c.block.txs == SortTxs(PoolAt(c.submitted, Leader(d, |courses|)))
    ensures AfterPacking(c.submitted, Leader(d, |courses|), c.checked)
  {
    hide Reachable, Deployment.Valid, AllHonest, Leader, InStep, IsRound, IsLockstep, Packed, SortTxs, Unspent,
         EnoughHonest, SamePools, Collectors, TookAt, BlocksOf;
    var k := |courses|;
    AllAreEnough(d);
    Lengths(d, init, turns, courses);
    LongerRun(d, init, turns, courses, turn, c);
    SameBeginning(d, init, turns, courses, turn, c);
    ViewMovesOn(d, init, turns + [turn], courses + [c], k);
    LeaderIsHonest(d, k + 1);
  }

  lemma SameBeginning(d: Deployment, init: Sys, turns: seq<Turn>, courses: seq<Course>, turn: Turn, c: Course)
    requires |turns| == |courses| && InStepAt(d, init, turns, courses, |courses|)
    ensures InStepAt(d, init, turns + [turn], courses + [c], |courses|)
    ensures SysAt(init, courses + [c], |courses|) == SysAt(init, courses, |courses|)
  {
    hide InStep, BlocksOf;
    TookPrefix(d, turns, turns + [turn], |turns|);
    assert (courses + [c])[..|courses|] == courses[..|courses|];
  }

  /** A view in which clients send nothing. */
  lemma IdleView(d: Deployment, init: Sys, turns: seq<Turn>, courses: seq<Course>) returns (turn: Turn, c: Course)
    requires d.Valid() && AllHonest(d) && Held(d, init, turns, courses)
    requires Unspent(SysAt(init, courses, |courses|), Leader(d, |courses|))
    ensures Held(d, init, turns + [turn], courses + [c]) && Collectors(turn.ballots) == d.honest
    ensures c.block.txs == SortTxs(PoolAt(SysAt(init, courses, |courses|), Leader(d, |courses|)))
    ensures AfterPacking(SysAt(init, courses, |courses|), Leader(d, |courses|), c.checked)
  {
    hide Reachable, Deployment.Valid, AllHonest, Leader, InStep, Packed, SortTxs, Unspent, IsRound, IsLockstep,
         AfterPacking, TookAt, Leads, Collectors;
    var s := SysAt(init, courses, |courses|);
    Lengths(d, init, turns, courses);
    NothingFresh(d, {});
    NextLeads(d, turns);
    assert Perform(d, s, Submissions([])) == s;
    turn, c := RoundCanBeHeld(d, TookAt(d, turns, |turns|), s, BlocksOf(courses[..|courses|]), [], d.honest);
    HeldLonger(d, init, turns, courses, turn, c);
  }

  function PoolAt(s: Sys, h: NodeId): seq<Tx> {
    if h in s.nodes then s.nodes[h].pendingTxs else []
  }

  /** One transaction is pending at these nodes, nothing anywhere else. */
  predicate PendingAt(s: Sys, who: set<NodeId>, tx: Tx) {
    forall h | h in s.nodes ::
      && s.nodes[h].pendingTxs == (if h in who then [tx] else [])
      && s.nodes[h].pendingNonces == (if h in who && tx.Commit? then {NonceKey(tx)} else {})
  }

  lemma PackedPending(s: Sys, leader: NodeId, s': Sys, who: set<NodeId>, tx: Tx)
    requires PendingAt(s, who, tx) && AfterPacking(s, leader, s') && leader in s.nodes
    ensures PendingAt(s', who - {leader}, tx)
  {
    forall h | h in s'.nodes
      ensures s'.nodes[h].pendingTxs == if h in who - {leader} then [tx] else []
      ensures s'.nodes[h].pendingNonces == if h in who - {leader} && tx.Commit? then {NonceKey(tx)} else {}
    {
      assert SamePool(s'.nodes[h], Packed(s, leader).nodes[h]);
    }
  }

  lemma OneTakes(d: Deployment, s: Sys, who: set<NodeId>, h: NodeId, tx: Tx)
    requires d.Valid() && s.nodes.Keys == d.honest && PendingAt(s, who, tx) && tx.Commit?
    requires h in d.honest && h !in who && s.nodes[h].seenNonces == {}
    ensures var s' := Called(d, s, h, Submit(tx));
            && PendingAt(s', who + {h}, tx) && forall g | g in s.nodes && g != h :: s'.nodes[g] == s.nodes[g]
  {
    hide Deployment.Valid, Called;
    ParamsValid(d, h);
    SubmitCalled(d, s, h, tx);
  }

  lemma BothTake(d: Deployment, s: Sys, a: NodeId, b: NodeId, tx: Tx)
    requires d.Valid() && Init(d, s) && a in d.honest && b in d.honest && a != b && tx.Commit?
    ensures PendingAt(Perform(d, s, Submissions([(a, tx), (b, tx)])), {a, b}, tx)
    ensures OnHonest(d, Submissions([(a, tx), (b, tx)]))
  {
    hide Deployment.Valid, Called, Perform, PendingAt, Init;
    NothingPending(d, s, tx);
    TwoCalls(d, s, Submissions([(a, tx), (b, tx)]));
    OneTakes(d, s, {}, a, tx);
    OneTakes(d, Called(d, s, a, Submit(tx)), {} + {a}, b, tx);
    assert {} + {a} + {b} == {a, b};
  }

  lemma NothingPending(d: Deployment, s: Sys, tx: Tx)
    requires Init(d, s)
    ensures s.nodes.Keys == d.honest && PendingAt(s, {}, tx) && forall h | h in s.nodes :: s.nodes[h].seenNonces == {}
  {
  }

  lemma TwoCalls(d: Deployment, s: Sys, calls: Calls)
    requires |calls| == 2
    ensures Perform(d, s, calls) == Called(d, Called(d, s, calls[0].0, calls[0].1), calls[1].0, calls[1].1)
  {
    hide Called;
    var first := calls[..1];
    assert Perform(d, s, first[..0]) == s;
    assert Perform(d, s, first) == Called(d, s, calls[0].0, calls[0].1);
  }

  lemma OneSorted(tx: Tx)
    ensures SortTxs([tx]) == [tx]
  {
    assert SortTxs([tx][..0]) == [];
  }

  lemma HonestLeader(d: Deployment, s: Sys, v: nat)
    requires d.Valid() && AllHonest(d) && s.nodes.Keys == d.honest
    ensures Leader(d, v) in s.nodes
  {
    LeaderIsHonest(d, v);
  }

  lemma Started(d: Deployment, init: Sys)
    requires d.Valid() && Init(d, init)
    ensures Held(d, init, [], [])
  {
    hide Reachable, Deployment.Valid, InStep;
    NothingYet(d, init, []);
    NoBlocks([]);
  }

  /** The first view, in which one transaction is sent to the leaders of the first two views. */
  lemma SentToTwo(d: Deployment, s: Sys, tx: Tx) returns (turn: Turn, c: Course)
    requires d.Valid() && AllHonest(d) && d.n >= 2 && tx.Commit? && Init(d, s)
    ensures turn.inbox == [(Leader(d, 0), tx), (Leader(d, 1), tx)] && Held(d, s, [turn], [c])
    ensures Collectors(turn.ballots) == d.honest
    ensures c.block.txs == [tx] && PendingAt(c.checked, {Leader(d, 1)}, tx)
  {
    hide Reachable, Deployment.Valid, AllHonest, InStep, Packed, SortTxs, Unspent, IsRound, EnoughHonest, Perform,
         Submissions, Init, Leader, Held, PendingAt, AfterPacking, TookAt, Collectors;
    var a, b := Leader(d, 0), Leader(d, 1);
    TwoLeaders(d);
    var inbox := [(a, tx), (b, tx)];
    Started(d, s);
    NothingYet(d, s, []);
    BothTake(d, s, a, b, tx);
    SubmissionsKeep(d, TookAt(d, [], 0), s, [], inbox);
    var s1 := Perform(d, s, Submissions(inbox));
    StepKeys(d, s1, TookAt(d, [], 0), []);
    EarlyIsUnspent(d, TookAt(d, [], 0), s1, [], a);
    turn, c := RoundCanBeHeld(d, TookAt(d, [], 0), s, [], inbox, d.honest);
    HeldLonger(d, s, [], [], turn, c);
    PackedPending(s1, a, c.checked, {a, b}, tx);
    assert {a, b} - {a} == {b};
    PendingPool(s1, {a, b}, tx, a);
    OneSorted(tx);
    assert [] + [turn] == [turn] && [] + [c] == [c];
  }

  lemma PendingPool(s: Sys, who: set<NodeId>, tx: Tx, h: NodeId)
    requires PendingAt(s, who, tx) && h in s.nodes
    ensures PoolAt(s, h) == if h in who then [tx] else []
  {
  }

  lemma TwoLeaders(d: Deployment)
    requires d.Valid() && AllHonest(d) && d.n >= 2
    ensures Leader(d, 0) != Leader(d, 1) && Leader(d, 0) in d.honest && Leader(d, 1) in d.honest
  {
    assert d.roster[0] in d.Members() && d.roster[1] in d.Members();
    LeaderAt(d, 0);
    LeaderAt(d, 1);
  }

  lemma EarlyView(d: Deployment, init: Sys, turns: seq<Turn>, courses: seq<Course>, who: set<NodeId>, tx: Tx)
    returns (turn: Turn, c: Course)
    requires d.Valid() && AllHonest(d) && Held(d, init, turns, courses)
    requires PendingAt(SysAt(init, courses, |courses|), who, tx)
    requires |courses| <= 2 || who == {}
    ensures Held(d, init, turns + [turn], courses + [c]) && PendingAt(c.checked, who - {Leader(d, |courses|)}, tx)
    ensures Collectors(turn.ballots) == d.honest
    ensures Leader(d, |courses|) in who ==> c.block.txs == [tx]
  {
    hide Reachable, Deployment.Valid, AllHonest, InStep, SortTxs, Unspent, AfterPacking, Leader, IsLockstep,
         BlocksOf, TookAt;
    var s, leader := SysAt(init, courses, |courses|), Leader(d, |courses|);
    Lengths(d, init, turns, courses);
    StepKeys(d, s, TookAt(d, turns, |turns|), BlocksOf(courses[..|courses|]));
    HonestLeader(d, s, |courses|);
    if |courses| <= 2 {
      EarlyIsUnspent(d, TookAt(d, turns, |turns|), s, BlocksOf(courses[..|courses|]), leader);
    } else {
      EmptyIsUnspent(s, leader);
    }
    turn, c := IdleView(d, init, turns, courses);
    PendingPool(s, who, tx, leader);
    OneSorted(tx);
    PackedPending(s, leader, c.checked, who, tx);
  }

  /** A nonce can be committed twice: from two members on there is a run without any fault in which a
    transaction sent to the leaders of the first two views is on both blocks everybody commits. A proposal is
    checked against committed nonces only, not against its uncommitted ancestors. */
  lemma NonceCommittedTwice(d: Deployment, tx: Tx) returns (init: Sys, turns: seq<Turn>, courses: seq<Course>)
    requires d.Valid() && AllHonest(d) && d.n >= 2 && tx.Commit?
    ensures IsLockstep(d, init, turns, courses) && |courses| == 4 && Reachable(d, courses[3].checked)
    ensures turns[0].inbox == [(Leader(d, 0), tx), (Leader(d, 1), tx)]
    ensures courses[0].block != courses[1].block && courses[0].block.txs == courses[1].block.txs == [tx]
    ensures forall h | h in d.honest ::
              h in courses[3].checked.nodes && courses[3].checked.nodes[h].committed == [courses[0].block, courses[1].block]
  {
    hide *;
    init := Beginning(d);
    var t0, c0 := SentToTwo(d, init, tx);
    LastIs(init, [], c0);
    assert [] + [c0] == [c0];
    var t1, c1 := EarlyView(d, init, [t0], [c0], {Leader(d, 1)}, tx);
    assert {Leader(d, 1)} - {Leader(d, 1)} == {};
    LastIs(init, [c0], c1);
    var t2, c2 := EarlyView(d, init, [t0] + [t1], [c0] + [c1], {}, tx);
    assert {} - {Leader(d, 2)} == {};
    LastIs(init, [c0] + [c1], c2);
    var t3, c3 := EarlyView(d, init, [t0] + [t1] + [t2], [c0] + [c1] + [c2], {}, tx);
    turns, courses := [t0] + [t1] + [t2] + [t3], [c0] + [c1] + [c2] + [c3];
    HeldEnds(d, init, turns, courses);
  }

  lemma LastIs(init: Sys, courses: seq<Course>, c: Course)
    ensures SysAt(init, courses + [c], |courses + [c]|) == c.checked
  {
  }

  lemma HeldEnds(d: Deployment, init: Sys, turns: seq<Turn>, courses: seq<Course>)
    requires Held(d, init, turns, courses) && |courses| == 4
    requires forall j | 0 <= j < 4 :: Collectors(turns[j].ballots) == d.honest
    ensures IsLockstep(d, init, turns, courses) && Reachable(d, courses[3].checked)
    ensures courses[0].block != courses[1].block
    ensures forall h | h in d.honest ::
              h in courses[3].checked.nodes && courses[3].checked.nodes[h].committed == [courses[0].block, courses[1].block]
  {
    hide Reachable, InStep, IsLockstep, Collectors, TookAt, Picks;
    Lengths(d, init, turns, courses);
    var s, took, chain := courses[3].checked, TookAt(d, turns, 4), BlocksOf(courses[..4]);
    CommittedInStep(d, took, s, chain);
    FirstTwoDiffer(d, took, s, chain);
    forall h | h in d.honest ensures h in s.nodes && s.nodes[h].committed == [courses[0].block, courses[1].block] {
      forall i: nat | i < 4 ensures i in TookBy(took, h) {
        TookIff(d, turns, 4, h, i);
      }
      AllPicked(chain, TookBy(took, h), 2);
      assert chain[..2] == [courses[0].block, courses[1].block];
    }
  }

  lemma FirstTwoDiffer(d: Deployment, took: Took, s: Sys, chain: seq<Proposal>)
    requires InStep(d, took, s, chain) && |chain| >= 2
    ensures chain[0] != chain[1]
  {
    hide NodeInStep;
    HashesDiffer(chain, 0, 1);
  }
}
