/** Failure-free progress (phase5/vap-to.mjs): lockstep views, in which the leader proposes, all vote, some
  collect the votes cast, and all check for commits. Exactly when the leader packs nothing committed before
  anywhere, everybody moves on; then each node commits exactly the blocks for whose child and grandchild it
  collected the votes itself, which is all blocks but the last two for those who always collect. Whoever did
  not collect learns the certificate from the next proposal. The views are stretches of runs of Protocol.dfy,
  so the agreement theorem speaks about them too. Within a phase the nodes act in any order, and each may
  collect its own list of votes; what holds one node at a time is proved in Standing.dfy. */
module Lockstep {
  import opened Wrappers
  import opened Endorse
  import opened Blocks
  import opened NodeState
  import opened VoteLog
  import opened Protocol
  import opened Standing
  import Commit
  import Quorum

  // ------------------------------------------------------------------ calls one after the other

  ghost predicate Ends(d: Deployment, run: seq<Sys>, s: Sys) {
    IsRun(d, run) && run[|run| - 1] == s
  }

  ghost predicate Reachable(d: Deployment, s: Sys) {
    exists run :: Ends(d, run, s)
  }

  lemma ReachableStep(d: Deployment, s: Sys, s': Sys, h: NodeId, c: Call)
    requires d.Valid() && Reachable(d, s) && StepOf(d, s, s', h, c)
    ensures Reachable(d, s')
  {
    hide StepOf, Init, Deployment.Valid;
    assert Step(d, s, s');
    var run :| Ends(d, run, s);
    var longer := run + [s'];
    forall i | 0 <= i < |longer| - 1 ensures StepAt(d, longer, i) {
      if i < |run| - 1 {
        assert StepAt(d, run, i);
      }
    }
    assert Ends(d, longer, s');
  }

  lemma ReachableInv(d: Deployment, s: Sys)
    requires d.Valid() && Reachable(d, s)
    ensures d.Sizes() && Inv(d, s)
  {
    hide Inv, Init, StepAt, Deployment.Valid, Deployment.Sizes;
    var run :| Ends(d, run, s);
    RunKeepsInv(d, run, |run| - 1);
  }

  lemma GenuineLater(d: Deployment, log: Log, more: Log, e: Endorsement<Message>)
    requires log <= more && Genuine(d, log, e)
    ensures Genuine(d, more, e)
  {
    GenuineMonotone(d, log, more, QC(0, Genesis, Genesis, [e], false));
  }

  lemma DeliverableLater(d: Deployment, log: Log, more: Log, c: Call)
    requires log <= more && Deliverable(d, log, c)
    ensures Deliverable(d, more, c)
  {
    hide Genuine, GenuineQC;
    match c
    case VoteOn(b) =>
      if b.justify.Some? {
        GenuineMonotone(d, log, more, b.justify.value);
      }
    case CollectVotes(votes) =>
      forall i | 0 <= i < |votes| ensures Genuine(d, more, votes[i]) {
        GenuineLater(d, log, more, votes[i]);
      }
    case ReceiveViewChange(vc) =>
      if vc.highestQC.Some? {
        GenuineMonotone(d, log, more, vc.highestQC.value);
      }
    case AdoptNewView(nv) =>
      if nv.anchorQC.Some? {
        GenuineMonotone(d, log, more, nv.anchorQC.value);
      }
    case _ =>
  }

  type Calls = seq<(NodeId, Call)>

  /** The votes each node collects. */
  type Ballots = seq<(NodeId, seq<Endorsement<Message>>)>

  /** What clients send to whom. */
  type Inbox = seq<(NodeId, Tx)>

  predicate OnHonest(d: Deployment, calls: Calls) {
    forall k | 0 <= k < |calls| :: calls[k].0 in d.honest
  }

  /** One node makes a call. */
  ghost function Called(d: Deployment, s: Sys, h: NodeId, c: Call): (s': Sys)
    ensures s'.nodes.Keys == s.nodes.Keys
  {
    if h in s.nodes && ParamsOf(d, h).Valid()
    then Sys(s.nodes[h := After(ParamsOf(d, h), s.nodes[h], c)], s.log + CastBy(ParamsOf(d, h), s.nodes[h], c))
    else s
  }

  /** Nodes make calls one after the other. */
  ghost function Perform(d: Deployment, s: Sys, calls: Calls): (s': Sys)
    ensures s'.nodes.Keys == s.nodes.Keys
  {
    if calls == [] then s
    else Called(d, Perform(d, s, calls[..|calls| - 1]), calls[|calls| - 1].0, calls[|calls| - 1].1)
  }

  predicate AllDeliverable(d: Deployment, log: Log, calls: Calls) {
    forall k | 0 <= k < |calls| :: Deliverable(d, log, calls[k].1)
  }

  lemma {:induction false} PerformReachable(d: Deployment, s: Sys, calls: Calls)
    requires d.Valid() && s.nodes.Keys == d.honest && OnHonest(d, calls)
    requires Reachable(d, s) && AllDeliverable(d, s.log, calls)
    ensures Reachable(d, Perform(d, s, calls)) && s.log <= Perform(d, s, calls).log
  {
    hide After, CastBy, Deliverable, Reachable, Deployment.Valid;
    if calls != [] {
      var init, h, c := calls[..|calls| - 1], calls[|calls| - 1].0, calls[|calls| - 1].1;
      PerformReachable(d, s, init);
      var s1 := Perform(d, s, init);
      DeliverableLater(d, s.log, s1.log, c);
      ParamsValid(d, h);
      ReachableStep(d, s1, Perform(d, s, calls), h, c);
    }
  }

  /** No node calls twice. */
  predicate OnceEach(calls: Calls) {
    forall i, j | 0 <= i < j < |calls| :: calls[i].0 != calls[j].0
  }

  predicate Calling(calls: Calls, h: NodeId) {
    exists k :: 0 <= k < |calls| && calls[k].0 == h
  }

  lemma {:induction false} OthersUntouched(d: Deployment, s: Sys, calls: Calls, g: NodeId)
    requires g in s.nodes && forall k | 0 <= k < |calls| :: calls[k].0 != g
    ensures Perform(d, s, calls).nodes[g] == s.nodes[g]
  {
    hide After, CastBy;
    if calls != [] {
      OthersUntouched(d, s, calls[..|calls| - 1], g);
    }
  }

  /** Node states do not interact: each node ends where its own call takes it, in any order of calls. */
  lemma {:induction false} PerformEffect(d: Deployment, s: Sys, calls: Calls, k: nat)
    requires OnceEach(calls) && k < |calls| && calls[k].0 in s.nodes && ParamsOf(d, calls[k].0).Valid()
    ensures var (g, c) := calls[k];
      && Perform(d, s, calls).nodes[g] == After(ParamsOf(d, g), s.nodes[g], c)
      && forall v | v in CastBy(ParamsOf(d, g), s.nodes[g], c) :: v in Perform(d, s, calls).log
  {
    hide After, CastBy;
    var init := calls[..|calls| - 1];
    if k < |init| {
      PerformEffect(d, s, init, k);
    } else {
      OthersUntouched(d, s, init, calls[k].0);
    }
  }

  // ------------------------------------------------------------------ in step

  /** For each node the views whose votes it has collected. */
  type Took = map<NodeId, set<nat>>

  function TookBy(took: Took, h: NodeId): set<nat> {
    if h in took then took[h] else {}
  }

  /** Some nodes collect the votes of view v. */
  function Taken(took: Took, who: set<NodeId>, v: nat): Took {
    map h | h in took :: took[h] + if h in who then {v} else {}
  }

  /** How many blocks a node holds certificates of: one that did not collect the votes for the last block
    learns its certificate only with the next proposal. */
  function Learnt(k: nat, took: set<nat>): nat {
    if k > 0 && k - 1 !in took then k - 1 else k
  }

  /** A node at the end of the chain. */
  ghost predicate NodeInStep(d: Deployment, s: State, chain: seq<Proposal>, took: set<nat>) {
    && Below(took, |chain|) && Stands(s, chain, |chain|, |chain|, Learnt(|chain|, took))
    && CommittedAre(s, Picks(chain, took, Settled(|chain|)))
    && IndexedBy(s.childIndex, chain, took)
    && PoolKept(s) && Verified(d, s.highestQC)
  }

  ghost predicate InStep(d: Deployment, took: Took, s: Sys, chain: seq<Proposal>) {
    && Linked(chain) && s.nodes.Keys == d.honest == took.Keys
    && (forall h | h in s.nodes :: NodeInStep(d, s.nodes[h], chain, TookBy(took, h)))
  }

  /** What clients send, in which order nodes vote, which votes each node collects, and in which order
    nodes check for commits. */
  datatype Turn = Turn(inbox: Inbox, voters: seq<NodeId>, ballots: Ballots, checkers: seq<NodeId>)

  /** The states a lockstep view goes through, and its block. */
  datatype Course = Course(submitted: Sys, proposed: Sys, block: Proposal, voted: Sys, collected: Sys, checked: Sys)

  function Submissions(inbox: Inbox): Calls {
    seq(|inbox|, k requires 0 <= k < |inbox| => (inbox[k].0, Submit(inbox[k].1)))
  }

  function Each(order: seq<NodeId>, c: Call): (calls: Calls)
    ensures |calls| == |order|
  {
    seq(|order|, k requires 0 <= k < |order| => (order[k], c))
  }

  function Collections(ballots: Ballots): Calls {
    seq(|ballots|, k requires 0 <= k < |ballots| => (ballots[k].0, CollectVotes(ballots[k].1)))
  }

  /** Every one of them makes one of the calls. */
  predicate Everybody(who: set<NodeId>, calls: Calls) {
    && (forall k | 0 <= k < |calls| :: calls[k].0 in who)
    && OnceEach(calls) && forall h | h in who :: Calling(calls, h)
  }

  function Leader(d: Deployment, v: nat): NodeId {
    if 0 < d.n == |d.roster| then d.roster[v % d.n] else 0
  }

  /** Every ballot holds all honest votes for the block there are, in any order and with anything else but
    forged votes. */
  ghost predicate CompleteBallots(d: Deployment, log: Log, b: Proposal, ballots: Ballots) {
    AllDeliverable(d, log, Collections(ballots)) && forall k | 0 <= k < |ballots| :: HoldsAllVotes(d, log, b, ballots[k].1)
  }

  /** From s the nodes make these calls, which leads to s'. */
  ghost predicate Does(d: Deployment, s: Sys, calls: Calls, s': Sys) {
    s.nodes.Keys == d.honest && OnHonest(d, calls) && s' == Perform(d, s, calls)
  }

  predicate Active(s: Sys, leader: NodeId, b: Proposal) {
    leader in s.nodes && s.nodes[leader].activeProposal == Some(b)
  }

  /** Who collects votes. */
  function Collectors(ballots: Ballots): set<NodeId> {
    set k | 0 <= k < |ballots| :: ballots[k].0
  }

  /** One lockstep view: clients submit, the leader proposes, all vote or refuse to, some collect the votes
    cast, all check for commits. Within a phase the nodes act in any order. */
  ghost predicate IsRound(d: Deployment, v: nat, turn: Turn, s: Sys, c: Course) {
    && Does(d, s, Submissions(turn.inbox), c.submitted)
    && Does(d, c.submitted, [(Leader(d, v), Protocol.Propose(v))], c.proposed) && Active(c.proposed, Leader(d, v), c.block)
    && Does(d, c.proposed, Each(turn.voters, VoteOn(c.block)), c.voted) && Everybody(d.honest, Each(turn.voters, VoteOn(c.block)))
    && Does(d, c.voted, Collections(turn.ballots), c.collected) && OnceEach(Collections(turn.ballots))
    && CompleteBallots(d, c.voted.log, c.block, turn.ballots)
    && Does(d, c.collected, Each(turn.checkers, CommitCheck), c.checked) && Everybody(d.honest, Each(turn.checkers, CommitCheck))
  }

  lemma CollectorsCall(d: Deployment, ballots: Ballots)
    requires OnceEach(Collections(ballots)) && OnHonest(d, Collections(ballots))
    ensures Everybody(Collectors(ballots), Collections(ballots)) && Collectors(ballots) <= d.honest
  {
    var calls := Collections(ballots);
    forall h | h in Collectors(ballots) ensures Calling(calls, h) && h in d.honest {
      var k :| 0 <= k < |ballots| && ballots[k].0 == h;
      assert calls[k].0 == h;
    }
  }

  /** The leader of view v knows the certificate of the block before. */
  predicate Leads(took: Took, leader: NodeId, v: nat) {
    v == 0 || v - 1 in TookBy(took, leader)
  }

  /** What the leader has in its mempool does not hold anything a node has committed. */
  predicate UnspentAt(s: Sys, leader: NodeId, h: NodeId) {
    leader in s.nodes && h in s.nodes && Nonces(s.nodes[leader].pendingTxs) !! s.nodes[h].seenNonces
  }

  predicate Unspent(s: Sys, leader: NodeId) {
    leader in s.nodes && forall h | h in s.nodes :: UnspentAt(s, leader, h)
  }

  lemma EndsWithOwnCall(d: Deployment, s: Sys, who: set<NodeId>, calls: Calls, h: NodeId) returns (k: nat)
    requires d.Valid() && s.nodes.Keys == d.honest && Everybody(who, calls) && h in who && who <= d.honest
    ensures k < |calls| && calls[k].0 == h && ParamsOf(d, h).Valid()
    ensures Perform(d, s, calls).nodes[h] == After(ParamsOf(d, h), s.nodes[h], calls[k].1)
    ensures forall v | v in CastBy(ParamsOf(d, h), s.nodes[h], calls[k].1) :: v in Perform(d, s, calls).log
  {
    hide Perform, After, CastBy;
    ParamsValid(d, h);
    assert Calling(calls, h);
    k :| 0 <= k < |calls| && calls[k].0 == h;
    PerformEffect(d, s, calls, k);
  }

  // ------------------------------------------------------------------ clients submit

  lemma SubmittedKeeps(d: Deployment, s: State, chain: seq<Proposal>, took: set<nat>, tx: Tx)
    requires NodeInStep(d, s, chain, took)
    ensures NodeInStep(d, Submitted(s, tx), chain, took)
  {
    hide Verified, Nonces, FreshTxs, IndexedBy;
    if AcceptsTx(s, tx) {
      FreshSplit({}, s.pendingTxs, tx);
      NoncesSplit(s.pendingTxs, tx);
    }
  }

  lemma SubmitCalled(d: Deployment, s: Sys, h: NodeId, tx: Tx)
    requires h in s.nodes && ParamsOf(d, h).Valid()
    ensures Called(d, s, h, Submit(tx)) == Sys(s.nodes[h := Submitted(s.nodes[h], tx)], s.log)
  {
    hide Submitted;
    assert s.log + [] == s.log;
  }

  lemma {:induction false} SubmissionsKeep(d: Deployment, took: Took, s: Sys, chain: seq<Proposal>, inbox: Inbox)
    requires d.Valid() && InStep(d, took, s, chain) && OnHonest(d, Submissions(inbox))
    ensures var s' := Perform(d, s, Submissions(inbox)); InStep(d, took, s', chain) && s'.log == s.log
  {
    hide NodeInStep, Called, Deployment.Valid, Linked;
    if inbox != [] {
      var init, last := inbox[..|inbox| - 1], inbox[|inbox| - 1];
      var calls := Submissions(inbox);
      assert calls[..|calls| - 1] == Submissions(init) && calls[|calls| - 1] == (last.0, Submit(last.1));
      SubmissionsKeep(d, took, s, chain, init);
      var s1 := Perform(d, s, Submissions(init));
      ParamsValid(d, last.0);
      SubmitCalled(d, s1, last.0, last.1);
      SubmittedKeeps(d, s1.nodes[last.0], chain, TookBy(took, last.0), last.1);
    }
  }

  // ------------------------------------------------------------------ the leader proposes

  function Drained(s: State): State {
    s.(pendingTxs := [], pendingNonces := {})
  }

  /** The state the rest of the view is measured against: the leader has packed its mempool. */
  function Packed(s: Sys, leader: NodeId): Sys {
    if leader in s.nodes then s.(nodes := s.nodes[leader := Drained(s.nodes[leader])]) else s
  }

  lemma DrainedKeeps(d: Deployment, s: State, chain: seq<Proposal>, took: set<nat>)
    requires NodeInStep(d, s, chain, took)
    ensures NodeInStep(d, Drained(s), chain, took)
  {
  }

  lemma PackedInStep(d: Deployment, took: Took, s: Sys, chain: seq<Proposal>, leader: NodeId)
    requires InStep(d, took, s, chain)
    ensures InStep(d, took, Packed(s, leader), chain)
  {
    hide NodeInStep, Drained, Linked;
    if leader in s.nodes {
      DrainedKeeps(d, s.nodes[leader], chain, TookBy(took, leader));
    }
  }

  predicate SameRest(s: State, t: State) {
    && s.committed == t.committed && s.committedHashes == t.committedHashes
    && s.lastCommittedHash == t.lastCommittedHash && s.seenNonces == t.seenNonces
    && s.pendingTxs == t.pendingTxs && s.pendingNonces == t.pendingNonces
  }

  /** A node between the proposal and its vote; the leader has stored the block already. */
  ghost predicate Proposing(s: State, before: State, chain: seq<Proposal>, b: Proposal, took: set<nat>) {
    && (Stands(s, chain + [b], |chain|, |chain|, Learnt(|chain|, took))
        || Stands(s, chain + [b], |chain| + 1, |chain|, Learnt(|chain|, took)))
    && SameRest(s, before) && s.childIndex == before.childIndex
  }

  lemma NextLinks(p: Params, s: State, chain: seq<Proposal>)
    requires p.Valid() && Linked(chain) && CertifiedUpTo(s, chain, |chain|)
    requires chain == [] ==> s.lastCommittedHash == Genesis
    ensures Linked(chain + [NewProposal(p, s, |chain|)])
    ensures NewProposal(p, s, |chain|).justify == s.highestQC
    ensures TopQC(s.highestQC, chain + [NewProposal(p, s, |chain|)], |chain|)
  {
    hide SortTxs;
    var b := NewProposal(p, s, |chain|);
    var all := chain + [b];
    assert all[|chain|] == b;
    forall i | 0 <= i < |all| ensures LinkAt(all, i) {
      if i < |chain| {
        assert LinkAt(chain, i) && all[i] == chain[i];
      }
    }
  }

  lemma StandsLonger(s: State, chain: seq<Proposal>, b: Proposal, certified: nat)
    requires Stands(s, chain, |chain|, |chain|, certified)
    ensures Stands(s, chain + [b], |chain|, |chain|, certified)
  {
    var all := chain + [b];
    assert forall i | 0 <= i < |chain| :: all[i] == chain[i];
    assert Prefix(all, |chain|) == Prefix(chain, |chain|) && Prefix(all, certified) == Prefix(chain, certified);
    forall i | 0 <= i < |chain| ensures StoredAt(s.blocks, all, i) {
      assert StoredAt(s.blocks, chain, i);
    }
  }

  lemma LeaderStands(s: State, chain: seq<Proposal>)
    requires chain != [] && Stands(s, chain, |chain| - 1, |chain| - 1, |chain| - 1)
    requires StoredUpTo(StoreBlock(s, chain[|chain| - 1]).blocks, chain, |chain|)
    ensures var b := chain[|chain| - 1];
            var s' := StoreBlock(s, b).(activeProposal := Some(b), view := Max(s.view, |chain| - 1), pendingTxs := [], pendingNonces := {});
            && Stands(s', chain, |chain|, |chain| - 1, |chain| - 1) && SameRest(s', Drained(s))
            && s'.childIndex == s.childIndex
  {
  }

  lemma LeaderProposes(p: Params, s: State, chain: seq<Proposal>)
    requires p.Valid() && p.LeaderOf(|chain|) == p.me
    requires Stands(s, chain, |chain|, |chain|, |chain|) && Linked(chain)
    requires chain == [] ==> s.lastCommittedHash == Genesis
    ensures var b := NewProposal(p, s, |chain|);
            && Linked(chain + [b]) && b.justify == s.highestQC && TopQC(b.justify, chain + [b], |chain|)
            && Proposed(p, s, |chain|).activeProposal == Some(b)
            && Stands(Proposed(p, s, |chain|), chain + [b], |chain| + 1, |chain|, |chain|)
            && SameRest(Proposed(p, s, |chain|), Drained(s)) && Proposed(p, s, |chain|).childIndex == s.childIndex
  {
    hide SortTxs, Drained, SameRest, NewProposal;
    var b := NewProposal(p, s, |chain|);
    var all, v := chain + [b], |chain|;
    assert all[v] == b;
    NextLinks(p, s, chain);
    StandsLonger(s, chain, b, v);
    StoreMovesOn(s, all, v, v);
    LeaderStands(s, all);
    ProposedIs(p, s, v);
  }

  lemma NoncesSorted(txs: seq<Tx>)
    ensures Nonces(SortTxs(txs)) == Nonces(txs)
  {
    var sorted := SortTxs(txs);
    forall i | 0 <= i < |sorted| && sorted[i].Commit? ensures NonceKey(sorted[i]) in Nonces(txs) {
      assert sorted[i] in multiset(txs);
      var j :| 0 <= j < |txs| && txs[j] == sorted[i];
    }
    forall i | 0 <= i < |txs| && txs[i].Commit? ensures NonceKey(txs[i]) in Nonces(sorted) {
      assert txs[i] in multiset(sorted);
      var j :| 0 <= j < |sorted| && sorted[j] == txs[i];
    }
  }

  /** A packed mempool passes the check of transactions against any nonces it does not hold. */
  lemma PackedPool(s: State, used: set<string>)
    requires PoolKept(s)
    ensures FreshTxs(used, SortTxs(s.pendingTxs)) <==> Nonces(s.pendingTxs) !! used
  {
    hide FreshTxs, SortTxs, Nonces;
    FreshSorted({}, s.pendingTxs);
    FreshAgainst(used, SortTxs(s.pendingTxs));
  }

  lemma ProposeCalled(d: Deployment, s: Sys, h: NodeId, v: nat)
    requires h in s.nodes && ParamsOf(d, h).Valid()
    ensures Perform(d, s, [(h, Protocol.Propose(v))]) == Sys(s.nodes[h := Proposed(ParamsOf(d, h), s.nodes[h], v)], s.log)
  {
    hide Deployment.Valid, Proposed;
    var calls: Calls := [(h, Protocol.Propose(v))];
    assert calls[..0] == [] && Perform(d, s, calls[..0]) == s;
    assert s.log + [] == s.log;
  }

  ghost predicate AllProposing(d: Deployment, took: Took, s: Sys, base: Sys, chain: seq<Proposal>, b: Proposal) {
    && s.nodes.Keys == d.honest && base.nodes.Keys == d.honest
    && forall h | h in d.honest :: Proposing(s.nodes[h], base.nodes[h], chain, b, TookBy(took, h))
  }

  lemma OthersWait(d: Deployment, s: State, chain: seq<Proposal>, b: Proposal, took: set<nat>)
    requires NodeInStep(d, s, chain, took)
    ensures Proposing(s, s, chain, b, took)
  {
    hide CommittedAre, IndexedBy, PoolKept, Verified;
    StandsLonger(s, chain, b, Learnt(|chain|, took));
  }

  /** What the leader packs is the next proposal. */
  lemma LeaderPacks(d: Deployment, leader: NodeId, s: State, chain: seq<Proposal>, took: set<nat>)
    requires d.Valid() && leader == Leader(d, |chain|) && ParamsOf(d, leader).Valid()
    requires NodeInStep(d, s, chain, took) && Linked(chain) && Learnt(|chain|, took) == |chain|
    ensures var b := NewProposal(ParamsOf(d, leader), s, |chain|);
            && NextProposal(d, chain, b) && b.txs == SortTxs(s.pendingTxs) && b.justify == s.highestQC
            && Proposed(ParamsOf(d, leader), s, |chain|).activeProposal == Some(b)
            && Proposing(Proposed(ParamsOf(d, leader), s, |chain|), Drained(s), chain, b, took)
  {
    var p := ParamsOf(d, leader);
    LeaderSigns(d, leader, s, |chain|);
    NothingCommittedYet(s, s, chain, took);
    hide Deployment.Valid, Proposed, Proposing, SortTxs, Linked, Stands, CommittedAre, PoolKept, FreshTxs, TopQC,
         Verified, SameRest, NewProposal, Drained, IndexedBy;
    LeaderProposes(p, s, chain);
    DrainedIndex(s);
    LeaderIsProposing(Proposed(p, s, |chain|), Drained(s), chain, NewProposal(p, s, |chain|), took);
  }

  lemma DrainedIndex(s: State)
    ensures Drained(s).childIndex == s.childIndex
  {
  }

  lemma LeaderSigns(d: Deployment, leader: NodeId, s: State, v: nat)
    requires d.Valid() && leader == Leader(d, v) && ParamsOf(d, leader).Valid()
    ensures var b := NewProposal(ParamsOf(d, leader), s, v);
            && d.n > 0 && |d.roster| == d.n && b.leader == d.roster[v % d.n] && b.leader in d.keys
            && b.sig == SignedBy(d.keys[b.leader], ProposalMessage(ContentOf(b)))
            && b.txs == SortTxs(s.pendingTxs)
    ensures ParamsOf(d, leader).LeaderOf(v) == leader
  {
    hide SortTxs;
  }

  lemma OneProposes(d: Deployment, took: Took, s: Sys, chain: seq<Proposal>, leader: NodeId, st: State, b: Proposal)
    requires InStep(d, took, s, chain) && leader in d.honest
    requires Proposing(st, Drained(s.nodes[leader]), chain, b, TookBy(took, leader))
    ensures AllProposing(d, took, Sys(s.nodes[leader := st], s.log), Packed(s, leader), chain, b)
  {
    hide NodeInStep, Proposing, Linked, Drained;
    forall h | h in d.honest && h != leader
      ensures Proposing(s.nodes[h], s.nodes[h], chain, b, TookBy(took, h))
    {
      OthersWait(d, s.nodes[h], chain, b, TookBy(took, h));
    }
  }

  lemma LeaderHasLearnt(took: Took, leader: NodeId, v: nat)
    requires Leads(took, leader, v)
    ensures Learnt(v, TookBy(took, leader)) == v
  {
  }

  lemma ProposePhase(d: Deployment, took: Took, s: Sys, chain: seq<Proposal>, s1: Sys, b: Proposal)
    requires d.Valid() && InStep(d, took, s, chain) && Leads(took, Leader(d, |chain|), |chain|)
    requires Does(d, s, [(Leader(d, |chain|), Protocol.Propose(|chain|))], s1) && Active(s1, Leader(d, |chain|), b)
    ensures Leader(d, |chain|) in d.honest
    ensures s1.log == s.log && NextProposal(d, chain, b)
    ensures AllProposing(d, took, s1, Packed(s, Leader(d, |chain|)), chain, b)
    ensures b.txs == SortTxs(s.nodes[Leader(d, |chain|)].pendingTxs)
    ensures b.justify == s.nodes[Leader(d, |chain|)].highestQC
  {
    hide Deployment.Valid, Leader, NodeInStep, Proposed, Proposing, Perform, SortTxs, Linked, Nonces, NextProposal,
         NewProposal, AllProposing, Packed, OnHonest, Learnt, TookBy;
    var leader := Leader(d, |chain|);
    CallerIsHonest(d, leader, Protocol.Propose(|chain|));
    ParamsValid(d, leader);
    LeaderHasLearnt(took, leader, |chain|);
    LeaderPacks(d, leader, s.nodes[leader], chain, TookBy(took, leader));
    ProposeCalled(d, s, leader, |chain|);
    var p, st := ParamsOf(d, leader), s.nodes[leader];
    OneProposes(d, took, s, chain, leader, Proposed(p, st, |chain|), NewProposal(p, st, |chain|));
  }

  lemma AloneIsHonest(d: Deployment, h: NodeId, c: Call)
    requires h in d.honest
    ensures OnHonest(d, [(h, c)])
  {
  }

  lemma CallerIsHonest(d: Deployment, h: NodeId, c: Call)
    requires OnHonest(d, [(h, c)])
    ensures h in d.honest
  {
    assert [(h, c)][0].0 == h;
  }

  lemma LeaderIsProposing(s: State, before: State, chain: seq<Proposal>, b: Proposal, took: set<nat>)
    requires Stands(s, chain + [b], |chain| + 1, |chain|, |chain|) && SameRest(s, before)
    requires s.childIndex == before.childIndex
    requires Learnt(|chain|, took) == |chain|
    ensures Proposing(s, before, chain, b, took)
  {
  }

  // ------------------------------------------------------------------ all vote

  /** A node that has voted for the last block of the chain. */
  ghost predicate HasVoted(d: Deployment, s: State, before: State, chain: seq<Proposal>) {
    && chain != [] && Stands(s, chain, |chain|, |chain|, |chain| - 1)
    && s.activeProposal == Some(chain[|chain| - 1]) && SameRest(s, before)
    && s.childIndex == before.childIndex && Verified(d, s.highestQC)
  }

  ghost predicate AllVoted(d: Deployment, s: Sys, base: Sys, chain: seq<Proposal>) {
    && s.nodes.Keys == d.honest && base.nodes.Keys == d.honest
    && forall h | h in d.honest :: HasVoted(d, s.nodes[h], base.nodes[h], chain)
  }

  lemma StoredCount(s: State, before: State, chain: seq<Proposal>, b: Proposal, took: set<nat>) returns (stored: nat)
    requires Proposing(s, before, chain, b, took)
    ensures |chain| <= stored <= |chain| + 1 && Stands(s, chain + [b], stored, |chain|, Learnt(|chain|, took))
    ensures SameRest(s, before) && s.childIndex == before.childIndex && VotedUpTo(s, chain + [b], |chain|)
  {
    stored := if Stands(s, chain + [b], |chain|, |chain|, Learnt(|chain|, took)) then |chain| else |chain| + 1;
  }

  lemma CastVoteRest(s: State, b: Proposal)
    ensures SameRest(CastVote(AdoptJustify(s, b), b), s) && CastVote(AdoptJustify(s, b), b).activeProposal == Some(b)
  {
  }

  lemma NothingCommittedYet(s: State, before: State, chain: seq<Proposal>, took: set<nat>)
    requires CommittedAre(before, Picks(chain, took, Settled(|chain|))) && SameRest(s, before)
    ensures s.lastCommittedHash == Genesis || chain != []
    ensures s.seenNonces == before.seenNonces
  {
  }

  /** A node votes for the next proposal exactly if all its transactions are fresh to it; otherwise its
    votes and lock stay what they were. */
  lemma NodeVotesIff(d: Deployment, h: NodeId, s: State, before: State, chain: seq<Proposal>, b: Proposal,
                     took: set<nat>)
    requires ParamsOf(d, h).Valid() && NextProposal(d, chain, b)
    requires NodeInStep(d, before, chain, took) && Proposing(s, before, chain, b, took)
    ensures CastBy(ParamsOf(d, h), s, VoteOn(b)) == if FreshTxs(before.seenNonces, b.txs) then [Vote(h, b.blockHash)] else []
    ensures if FreshTxs(before.seenNonces, b.txs) then HasVoted(d, After(ParamsOf(d, h), s, VoteOn(b)), before, chain + [b])
            else VotedUpTo(After(ParamsOf(d, h), s, VoteOn(b)), chain + [b], |chain|)
  {
    hide NextProposal, Admission, Extension, CastVote, AdoptJustify, Stands, FreshTxs, Proposing, Verified, IndexedBy,
         CommittedAre, Picks, PoolKept, VotedUpTo, SameRest, NodeState.Voted;
    var stored := StoredCount(s, before, chain, b, took);
    NothingCommittedYet(s, before, chain, took);
    NextIsAcceptedIff(d, h, s, chain, b, stored, Learnt(|chain|, took));
    VotedCases(ParamsOf(d, h), s, b);
    if FreshTxs(before.seenNonces, b.txs) {
      VoteMovesOn(d, s, chain, b, stored, Learnt(|chain|, took));
      CastVoteRest(s, b);
      LastBlock(d, chain, b);
      SameRestTwice(CastVote(AdoptJustify(s, b), b), s, before);
    } else {
      AdoptFrame(s, b);
      SameVotes(s, AdoptJustify(s, b), chain + [b], |chain|);
    }
  }

  lemma SameRestTwice(s: State, t: State, u: State)
    requires SameRest(s, t) && SameRest(t, u)
    ensures SameRest(s, u)
  {
  }

  lemma SameVotes(s: State, t: State, chain: seq<Proposal>, k: nat)
    requires k <= |chain| && VotedUpTo(s, chain, k) && t.view == s.view && t.votedViews == s.votedViews
    requires t.lock == s.lock
    ensures VotedUpTo(t, chain, k)
  {
  }

  lemma LastBlock(d: Deployment, chain: seq<Proposal>, b: Proposal)
    requires NextProposal(d, chain, b)
    ensures Linked(chain + [b]) && (chain + [b])[|chain + [b]| - 1] == b && chain + [b] != []
    ensures |chain + [b]| == |chain| + 1
    ensures d.n > 0 && |d.roster| == d.n && b.leader == d.roster[|chain| % d.n] && Verified(d, b.justify)
  {
  }

  /** No transaction of b is committed anywhere or comes twice. */
  predicate FreshToAll(s: Sys, b: Proposal) {
    forall h | h in s.nodes :: FreshTxs(s.nodes[h].seenNonces, b.txs)
  }

  lemma VotePhase(d: Deployment, took: Took, base: Sys, s: Sys, chain: seq<Proposal>, b: Proposal, calls: Calls)
    requires d.Valid() && InStep(d, took, base, chain) && NextProposal(d, chain, b)
    requires AllProposing(d, took, s, base, chain, b) && FreshToAll(base, b)
    requires Everybody(d.honest, calls) && forall k | 0 <= k < |calls| :: calls[k].1 == VoteOn(b)
    ensures AllVoted(d, Perform(d, s, calls), base, chain + [b])
    ensures AllVotedFor(d, Perform(d, s, calls).log, b.blockHash)
  {
    hide Perform, NextProposal, NodeInStep, Proposing, HasVoted, After, CastBy, OnceEach, Calling, Deployment.Valid,
         Linked, FreshTxs;
    forall h | h in d.honest
      ensures HasVoted(d, Perform(d, s, calls).nodes[h], base.nodes[h], chain + [b])
      ensures Vote(h, b.blockHash) in Perform(d, s, calls).log
    {
      var k := EndsWithOwnCall(d, s, d.honest, calls, h);
      NodeVotesIff(d, h, s.nodes[h], base.nodes[h], chain, b, TookBy(took, h));
    }
  }

  // ------------------------------------------------------------------ some collect

  /** A node that has collected the votes for the last block, or let it pass, but not yet looked for commits. */
  ghost predicate HasCertified(d: Deployment, s: State, before: State, chain: seq<Proposal>, took: set<nat>) {
    && Below(took, |chain|) && Stands(s, chain, |chain|, |chain|, Learnt(|chain|, took)) && Verified(d, s.highestQC)
    && SameRest(s, before) && IndexedBy(s.childIndex, chain, took)
  }

  ghost predicate AllCertified(d: Deployment, took: Took, s: Sys, base: Sys, chain: seq<Proposal>) {
    && s.nodes.Keys == d.honest && base.nodes.Keys == d.honest
    && forall h | h in d.honest :: HasCertified(d, s.nodes[h], base.nodes[h], chain, TookBy(took, h))
  }

  lemma CollectedRest(p: Params, s: State, votes: seq<Endorsement<Message>>)
    ensures SameRest(Collected(p, s, votes), s)
  {
  }

  lemma IndexedLonger(index: map<Hash, Hash>, chain: seq<Proposal>, b: Proposal, took: set<nat>)
    requires Below(took, |chain|) && IndexedBy(index, chain, took)
    ensures Below(took, |chain + [b]|) && IndexedBy(index, chain + [b], took)
  {
    var all := chain + [b];
    assert forall i | 0 <= i < |chain| :: all[i] == chain[i];
    assert forall i | 0 <= i < |chain| :: ParentAt(all, i) == ParentAt(chain, i);
    forall i | i in took ensures IndexedAt(index, all, i) {
      assert IndexedAt(index, chain, i);
    }
    forall h | h in index ensures exists i :: i in took && ParentAt(all, i) == h {
      var i :| i in took && ParentAt(chain, i) == h;
      assert ParentAt(all, i) == h;
    }
  }

  lemma NodeCollects(d: Deployment, h: NodeId, s: State, before: State, chain: seq<Proposal>, b: Proposal,
                     took: set<nat>, votes: seq<Endorsement<Message>>)
    requires Linked(chain + [b]) && HasVoted(d, s, before, chain + [b]) && HoldsQuorum(d, b, votes)
    requires Below(took, |chain|) && IndexedBy(before.childIndex, chain, took)
    ensures HasCertified(d, Collected(ParamsOf(d, h), s, votes), before, chain + [b], took + {|chain|})
  {
    hide Linked, Stands, HoldsQuorum, Verified, Collected, QCFrom, ParamsOf, IndexedBy, SameRest;
    var all := chain + [b];
    assert all[|chain|] == b && |all| - 1 == |chain|;
    QuorumCertifies(d, b, votes);
    IndexedLonger(before.childIndex, chain, b, took);
    CollectMovesOn(d, h, s, all, took, votes);
    CollectedRest(ParamsOf(d, h), s, votes);
    SameRestTwice(Collected(ParamsOf(d, h), s, votes), s, before);
  }

  /** Who does not collect now learns the certificate with the next proposal. */
  lemma NodeWaits(d: Deployment, s: State, before: State, chain: seq<Proposal>, b: Proposal, took: set<nat>)
    requires HasVoted(d, s, before, chain + [b]) && Below(took, |chain|) && IndexedBy(before.childIndex, chain, took)
    ensures HasCertified(d, s, before, chain + [b], took)
  {
    hide Stands, Verified, IndexedBy, SameRest;
    assert |chain + [b]| - 1 == |chain|;
    IndexedLonger(before.childIndex, chain, b, took);
  }

  lemma AfterCollecting(p: Params, s: State, votes: seq<Endorsement<Message>>)
    requires p.Valid()
    ensures After(p, s, CollectVotes(votes)) == Collected(p, s, votes)
  {
  }

  lemma CollectPhase(d: Deployment, took: Took, base: Sys, s: Sys, chain: seq<Proposal>, b: Proposal, ballots: Ballots)
    requires d.Valid() && Linked(chain + [b]) && InStep(d, took, base, chain) && AllVoted(d, s, base, chain + [b])
    requires OnceEach(Collections(ballots)) && OnHonest(d, Collections(ballots))
    requires forall k | 0 <= k < |ballots| :: HoldsQuorum(d, b, ballots[k].1)
    ensures AllCertified(d, Taken(took, Collectors(ballots), |chain|), Perform(d, s, Collections(ballots)), base, chain + [b])
  {
    hide Perform, Linked, HasVoted, HasCertified, HoldsQuorum, Collected, OnceEach, Calling, After, CastBy,
         Deployment.Valid, ParamsOf, Stands, CommittedAre, IndexedBy, PoolKept, Verified, Picks, OnHonest;
    var calls := Collections(ballots);
    CollectorsCall(d, ballots);
    forall h | h in d.honest
      ensures HasCertified(d, Perform(d, s, calls).nodes[h], base.nodes[h], chain + [b], TookBy(Taken(took, Collectors(ballots), |chain|), h))
    {
      assert NodeInStep(d, base.nodes[h], chain, TookBy(took, h));
      if h in Collectors(ballots) {
        var k := EndsWithOwnCall(d, s, Collectors(ballots), calls, h);
        NodeCollects(d, h, s.nodes[h], base.nodes[h], chain, b, TookBy(took, h), ballots[k].1);
        AfterCollecting(ParamsOf(d, h), s.nodes[h], ballots[k].1);
      } else {
        OthersUntouched(d, s, calls, h);
        NodeWaits(d, s.nodes[h], base.nodes[h], chain, b, TookBy(took, h));
        assert took[h] + {} == took[h];
      }
    }
  }

  // ------------------------------------------------------------------ all commit

  lemma ChildAt(s: State, chain: seq<Proposal>, took: set<nat>, i: nat)
    requires Linked(chain) && i < |chain| && Below(took, |chain|)
    requires StoredUpTo(s.blocks, chain, |chain|) && IndexedBy(s.childIndex, chain, took)
    ensures CertifiedChild(s, chain[i].blockHash) == if i + 1 in took then Some(chain[i + 1]) else None
  {
    if i + 1 in took {
      assert IndexedAt(s.childIndex, chain, i + 1) && StoredAt(s.blocks, chain, i + 1);
    } else if chain[i].blockHash in s.childIndex {
      var j :| j in took && ParentAt(chain, j) == chain[i].blockHash;
      HashesDiffer(chain, i, if j == 0 then i else j - 1);
    }
  }

  /** Just after block k-1, the only block that can be committed now is block k-3, and only by a node that
    collected the votes for both blocks on top of it. */
  lemma CommittableIsThirdLast(d: Deployment, s: State, before: State, chain: seq<Proposal>, took: set<nat>, x: Hash)
    requires Linked(chain) && chain != []
    requires HasCertified(d, s, before, chain, took) && CommittedAre(before, Picks(chain, took, Settled(|chain| - 1)))
    ensures Committable(s, x) <==> |chain| >= 3 && Ripe(took, |chain| - 3) && x == chain[|chain| - 3].blockHash
  {
    hide Verified, ChainNonces, Picks, IndexedBy, Ripe;
    var k := |chain|;
    if x in s.blocks {
      var i :| 0 <= i < k && chain[i].blockHash == x;
      CommittableAt(d, s, before, chain, took, i);
    } else if k >= 3 {
      assert StoredAt(s.blocks, chain, k - 3);
    }
  }

  lemma CommittableAt(d: Deployment, s: State, before: State, chain: seq<Proposal>, took: set<nat>, i: nat)
    requires Linked(chain) && i < |chain|
    requires HasCertified(d, s, before, chain, took) && CommittedAre(before, Picks(chain, took, Settled(|chain| - 1)))
    ensures Committable(s, chain[i].blockHash) <==> i + 3 == |chain| && Ripe(took, i)
    ensures |chain| >= 3 ==> (chain[i].blockHash == chain[|chain| - 3].blockHash <==> i + 3 == |chain|)
  {
    hide Verified, ChainNonces, Picks, IndexedBy;
    var k := |chain|;
    ChildAt(s, chain, took, i);
    if i + 1 in took {
      ChildAt(s, chain, took, i + 1);
    }
    PickedIff(chain, took, Settled(k - 1), i);
    if k >= 3 {
      HashesDiffer(chain, i, k - 3);
    }
    assert StoredAt(s.blocks, chain, i);
    if i < Learnt(k, took) {
      assert chain[i].blockHash in Prefix(chain, Learnt(k, took));
    }
  }

  lemma SingletonList(added: seq<Proposal>, b: Proposal)
    requires Commit.Distinct(added) && Commit.Hashes(added) == {b.blockHash}
    requires forall x | x in added :: x.blockHash == b.blockHash ==> x == b
    ensures added == [b]
  {
    assert b.blockHash in Commit.Hashes(added);
    forall i | 0 <= i < |added| ensures added[i] == b {
      assert added[i].blockHash in Commit.Hashes(added) && added[i] in added;
    }
    assert |added| > 1 ==> added[0].blockHash != added[1].blockHash;
  }

  function ThirdLast(chain: seq<Proposal>, took: set<nat>): seq<Proposal> {
    if |chain| >= 3 && Ripe(took, |chain| - 3) then [chain[|chain| - 3]] else []
  }

  lemma ThirdLastIsCommitted(d: Deployment, h: NodeId, log: Log, s: State, before: State, chain: seq<Proposal>,
                             took: set<nat>)
    requires NodeInv(d, h, log, s) && Linked(chain) && chain != []
    requires HasCertified(d, s, before, chain, took) && CommittedAre(before, Picks(chain, took, Settled(|chain| - 1)))
    ensures CommitChecked(s) == CommitAll(s, ThirdLast(chain, took))
    ensures ThirdLast(chain, took) != [] ==> chain[|chain| - 3].blockHash !in s.committedHashes
  {
    hide NodeInv, Linked, CommittedAre, Committable, CommitChecked, CommitAll, StoredUpTo, CertifiedUpTo, VotedUpTo,
         Verified, IndexedBy, Ripe, Picks;
    var k := |chain|;
    var added := Commit.CommitCheckCommitsExactly(d, h, log, s);
    forall x ensures x in Commit.Hashes(added) <==> k >= 3 && Ripe(took, k - 3) && x == chain[k - 3].blockHash {
      CommittableIsThirdLast(d, s, before, chain, took, x);
    }
    if ThirdLast(chain, took) == [] {
      assert |added| > 0 ==> added[0].blockHash in Commit.Hashes(added);
    } else {
      ThirdLastStored(s, chain);
      SingletonList(added, chain[k - 3]);
      CommittableIsThirdLast(d, s, before, chain, took, chain[k - 3].blockHash);
      NotYetCommitted(s, chain[k - 3].blockHash);
    }
  }

  lemma ThirdLastStored(s: State, chain: seq<Proposal>)
    requires |chain| >= 3 && StoredUpTo(s.blocks, chain, |chain|)
    ensures StoredAt(s.blocks, chain, |chain| - 3)
  {
  }

  lemma NotYetCommitted(s: State, h: Hash)
    requires Committable(s, h)
    ensures h !in s.committedHashes
  {
  }

  lemma CommitsMoveOn(s: State, before: State, chain: seq<Proposal>, took: set<nat>)
    requires chain != [] && CommittedAre(before, Picks(chain, took, Settled(|chain| - 1))) && SameRest(s, before)
    requires ThirdLast(chain, took) != [] ==> chain[|chain| - 3].blockHash !in s.committedHashes
    ensures CommittedAre(CommitAll(s, ThirdLast(chain, took)), Picks(chain, took, Settled(|chain|)))
  {
    hide ChainNonces, Nonces, Ripe;
    var k, added := |chain|, ThirdLast(chain, took);
    var bs := Picks(chain, took, Settled(k - 1));
    assert Picks(chain, took, Settled(k)) == bs + added;
    if added == [] {
      assert CommitAll(s, added) == s && bs + added == bs;
    } else {
      assert added[..0] == [] && CommitAll(s, added[..0]) == s;
      assert CommitAll(s, added) == Committed(s, chain[k - 3]);
      PushedHashes(bs, chain[k - 3]);
      PushedNonces(bs, chain[k - 3]);
    }
  }

  lemma ChainNoncesGrow(chain: seq<Proposal>, j: nat)
    requires j < |chain|
    ensures ChainNonces(chain[..j + 1]) == ChainNonces(chain[..j]) + Nonces(chain[j].txs)
  {
    var a, b := chain[..j], chain[..j + 1];
    assert b[j] == chain[j] && forall i | 0 <= i < j :: b[i] == a[i];
  }

  lemma CommitFrame(s: State, added: seq<Proposal>)
    ensures var t := CommitAll(s, added);
            && t.blocks == s.blocks && t.qcByBlockHash == s.qcByBlockHash && t.childIndex == s.childIndex
            && t.highestQC == s.highestQC && t.view == s.view && t.votedViews == s.votedViews && t.lock == s.lock
            && t.expelled == s.expelled && t.pendingTxs == s.pendingTxs && t.pendingNonces == s.pendingNonces
  {
    if added != [] {
      CommitFrame(s, added[..|added| - 1]);
    }
  }

  lemma StandsFrame(s: State, t: State, chain: seq<Proposal>, certified: nat)
    requires Stands(s, chain, |chain|, |chain|, certified)
    requires t.blocks == s.blocks && t.qcByBlockHash == s.qcByBlockHash
    requires t.highestQC == s.highestQC && t.view == s.view && t.votedViews == s.votedViews && t.lock == s.lock
    requires t.expelled == s.expelled
    ensures Stands(t, chain, |chain|, |chain|, certified)
  {
  }

  predicate SamePool(s: State, t: State) {
    s.pendingTxs == t.pendingTxs && s.pendingNonces == t.pendingNonces
  }

  lemma NodeCommits(d: Deployment, h: NodeId, log: Log, s: State, before: State, chain: seq<Proposal>, took: set<nat>)
    requires NodeInv(d, h, log, s) && Linked(chain) && chain != [] && PoolKept(before)
    requires HasCertified(d, s, before, chain, took) && CommittedAre(before, Picks(chain, took, Settled(|chain| - 1)))
    ensures NodeInStep(d, CommitChecked(s), chain, took) && SamePool(CommitChecked(s), before)
  {
    hide NodeInv, Linked, Verified, CommitChecked, CommitAll, CommittedAre, Stands, FreshTxs, Nonces, IndexedBy,
         ThirdLast, Picks, Learnt;
    ThirdLastIsCommitted(d, h, log, s, before, chain, took);
    CommitsMoveOn(s, before, chain, took);
    CommitFrame(s, ThirdLast(chain, took));
    StandsFrame(s, CommitAll(s, ThirdLast(chain, took)), chain, Learnt(|chain|, took));
  }

  lemma AfterCommitCheck(p: Params, s: State)
    requires p.Valid()
    ensures After(p, s, CommitCheck) == CommitChecked(s)
  {
  }

  /** What is committed, told on the longer chain and with one collection more. */
  lemma CommittedOnLonger(s: State, chain: seq<Proposal>, b: Proposal, took: set<nat>, more: set<nat>)
    requires CommittedAre(s, Picks(chain, took, Settled(|chain|))) && (more == took || more == took + {|chain|})
    ensures |chain + [b]| - 1 == |chain| && CommittedAre(s, Picks(chain + [b], more, Settled(|chain|)))
  {
    hide CommittedAre;
    if more != took {
      PicksStay(chain, took, |chain|, Settled(|chain|));
    }
    PicksLonger(chain, b, more, Settled(|chain|));
  }

  lemma NodeChecks(d: Deployment, h: NodeId, log: Log, s: State, before: State, chain: seq<Proposal>, b: Proposal,
                   took: set<nat>, more: set<nat>)
    requires NodeInv(d, h, log, s) && Linked(chain + [b]) && NodeInStep(d, before, chain, took)
    requires HasCertified(d, s, before, chain + [b], more) && (more == took || more == took + {|chain|})
    ensures NodeInStep(d, CommitChecked(s), chain + [b], more) && SamePool(CommitChecked(s), before)
  {
    hide NodeInv, Linked, HasCertified, CommittedAre, PoolKept, Stands, Verified, SamePool, CommitChecked,
         IndexedBy, Picks;
    CommittedOnLonger(before, chain, b, took, more);
    NodeCommits(d, h, log, s, before, chain + [b], more);
  }

  predicate SamePools(s: Sys, t: Sys) {
    t.nodes.Keys == s.nodes.Keys && forall h | h in t.nodes :: SamePool(t.nodes[h], s.nodes[h])
  }

  /** Each node has collected the votes for the new block, or has not. */
  predicate OneMore(took: Took, more: Took, v: nat) {
    more.Keys == took.Keys && forall h | h in took :: more[h] == took[h] || more[h] == took[h] + {v}
  }

  lemma TakenIsOneMore(took: Took, who: set<NodeId>, v: nat)
    ensures OneMore(took, Taken(took, who, v), v)
  {
    assert forall h | h in took :: took[h] + {} == took[h];
  }

  lemma CommitPhase(d: Deployment, took: Took, more: Took, base: Sys, s: Sys, chain: seq<Proposal>, b: Proposal,
                    calls: Calls)
    requires d.Valid() && InStep(d, took, base, chain) && Linked(chain + [b]) && Inv(d, s)
    requires OneMore(took, more, |chain|)
    requires AllCertified(d, more, s, base, chain + [b])
    requires Everybody(d.honest, calls) && forall k | 0 <= k < |calls| :: calls[k].1 == CommitCheck
    ensures InStep(d, more, Perform(d, s, calls), chain + [b]) && SamePools(base, Perform(d, s, calls))
  {
    hide Perform, Linked, HasCertified, NodeInStep, NodeInv, OnceEach, Calling, After, CastBy, Deployment.Valid,
         SamePool, Lawful;
    forall h | h in d.honest
      ensures NodeInStep(d, Perform(d, s, calls).nodes[h], chain + [b], TookBy(more, h))
      ensures SamePool(Perform(d, s, calls).nodes[h], base.nodes[h])
    {
      var k := EndsWithOwnCall(d, s, d.honest, calls, h);
      NodeChecks(d, h, s.log, s.nodes[h], base.nodes[h], chain, b, TookBy(took, h), TookBy(more, h));
      AfterCommitCheck(ParamsOf(d, h), s.nodes[h]);
    }
  }

  // ------------------------------------------------------------------ one view

  lemma DoesReachable(d: Deployment, s: Sys, calls: Calls, s': Sys)
    requires d.Valid() && Reachable(d, s) && Does(d, s, calls, s') && AllDeliverable(d, s.log, calls)
    ensures Reachable(d, s') && s'.nodes.Keys == d.honest
  {
    hide Reachable, Perform, AllDeliverable, OnHonest, Deployment.Valid;
    PerformReachable(d, s, calls);
  }

  lemma CertificateIsGenuine(d: Deployment, s: Sys, h: NodeId)
    requires d.Valid() && Reachable(d, s) && h in s.nodes
    ensures GenuineOption(d, s.log, s.nodes[h].highestQC)
  {
    hide Reachable, Deployment.Valid, BlocksFiled, ChildrenIndexed, VotesKept, CommitsFinal, Lawful;
    ReachableInv(d, s);
    assert NodeInv(d, h, s.log, s.nodes[h]);
  }

  /** Clients submit and the leader proposes. */
  lemma OpeningMovesOn(d: Deployment, took: Took, s: Sys, chain: seq<Proposal>, turn: Turn, c: Course)
    requires d.Valid() && Reachable(d, s) && InStep(d, took, s, chain) && IsRound(d, |chain|, turn, s, c)
    requires Leads(took, Leader(d, |chain|), |chain|)
    ensures InStep(d, took, c.submitted, chain) && Reachable(d, c.proposed)
    ensures Leader(d, |chain|) in d.honest && Leader(d, |chain|) in c.submitted.nodes
    ensures NextProposal(d, chain, c.block)
    ensures AllProposing(d, took, c.proposed, Packed(c.submitted, Leader(d, |chain|)), chain, c.block)
    ensures c.block.txs == SortTxs(c.submitted.nodes[Leader(d, |chain|)].pendingTxs)
    ensures GenuineOption(d, c.proposed.log, c.block.justify)
  {
    hide Reachable, Perform, Deployment.Valid, Leader, NodeInStep, NextProposal, AllProposing, Packed, SortTxs,
         Linked, Everybody, CompleteBallots, OnHonest, Active, GenuineOption, Leads, Collections, OnceEach;
    var leader := Leader(d, |chain|);
    SubmissionsKeep(d, took, s, chain, turn.inbox);
    DoesReachable(d, s, Submissions(turn.inbox), c.submitted);
    ProposePhase(d, took, c.submitted, chain, c.proposed, c.block);
    DoesReachable(d, c.submitted, [(leader, Protocol.Propose(|chain|))], c.proposed);
    CertificateIsGenuine(d, c.submitted, leader);
  }

  predicate FreshAt(s: Sys, h: NodeId, b: Proposal) {
    h in s.nodes && FreshTxs(s.nodes[h].seenNonces, b.txs)
  }

  predicate VotedAt(s: Sys, h: NodeId, chain: seq<Proposal>, k: nat) {
    h in s.nodes && k <= |chain| && VotedUpTo(s.nodes[h], chain, k)
  }

  /** What the leader packs is fresh to a node exactly if the node has committed none of it. */
  lemma PackedFreshAt(d: Deployment, took: Took, s: Sys, chain: seq<Proposal>, leader: NodeId, b: Proposal, h: NodeId)
    requires InStep(d, took, s, chain) && leader in s.nodes && h in s.nodes
    requires b.txs == SortTxs(s.nodes[leader].pendingTxs)
    ensures FreshAt(Packed(s, leader), h, b) <==> UnspentAt(s, leader, h)
  {
    hide FreshTxs, SortTxs, Nonces, Linked, Below, Stands, IndexedBy, CommittedAre, Verified, PoolKept;
    assert NodeInStep(d, s.nodes[leader], chain, TookBy(took, leader));
    PackedPool(s.nodes[leader], s.nodes[h].seenNonces);
  }

  lemma UnspentIsFresh(d: Deployment, took: Took, s: Sys, chain: seq<Proposal>, leader: NodeId, b: Proposal)
    requires InStep(d, took, s, chain) && leader in s.nodes && Unspent(s, leader)
    requires b.txs == SortTxs(s.nodes[leader].pendingTxs)
    ensures FreshToAll(Packed(s, leader), b)
  {
    hide NodeInStep, FreshTxs, SortTxs, Linked, Packed, UnspentAt;
    PackedKeys(s, leader);
    forall h | h in Packed(s, leader).nodes ensures FreshAt(Packed(s, leader), h, b) {
      PackedFreshAt(d, took, s, chain, leader, b, h);
    }
  }

  lemma PackedKeys(s: Sys, leader: NodeId)
    ensures Packed(s, leader).nodes.Keys == s.nodes.Keys
  {
  }

  lemma VotesDeliverable(d: Deployment, log: Log, order: seq<NodeId>, b: Proposal)
    requires GenuineOption(d, log, b.justify)
    ensures AllDeliverable(d, log, Each(order, VoteOn(b)))
    ensures forall k | 0 <= k < |order| :: Each(order, VoteOn(b))[k].1 == VoteOn(b)
  {
  }

  lemma VotingMovesOn(d: Deployment, took: Took, base: Sys, s: Sys, chain: seq<Proposal>, b: Proposal,
                      order: seq<NodeId>, s': Sys)
    requires d.Valid() && Reachable(d, s) && InStep(d, took, base, chain)
    requires NextProposal(d, chain, b) && AllProposing(d, took, s, base, chain, b) && GenuineOption(d, s.log, b.justify)
    requires Everybody(d.honest, Each(order, VoteOn(b))) && Does(d, s, Each(order, VoteOn(b)), s')
    requires FreshToAll(base, b)
    ensures Reachable(d, s') && s'.nodes.Keys == d.honest
    ensures AllVoted(d, s', base, chain + [b]) && AllVotedFor(d, s'.log, b.blockHash)
  {
    hide Reachable, Perform, Deployment.Valid, InStep, NextProposal, AllProposing, AllVoted, Each, OnHonest, OnceEach,
         Calling, GenuineOption, AllVotedFor, AllDeliverable, FreshToAll;
    VotesDeliverable(d, s.log, order, b);
    VotePhase(d, took, base, s, chain, b, Each(order, VoteOn(b)));
    DoesReachable(d, s, Each(order, VoteOn(b)), s');
  }

  lemma BallotsSuffice(d: Deployment, log: Log, b: Proposal, ballots: Ballots)
    requires d.Valid() && EnoughHonest(d) && AllVotedFor(d, log, b.blockHash) && CompleteBallots(d, log, b, ballots)
    ensures forall k | 0 <= k < |ballots| :: HoldsQuorum(d, b, ballots[k].1)
  {
    hide Deployment.Valid, EnoughHonest, AllVotedFor, HoldsAllVotes, HoldsQuorum, AllDeliverable;
    forall k | 0 <= k < |ballots| ensures HoldsQuorum(d, b, ballots[k].1) {
      AllVotesSuffice(d, log, b, ballots[k].1);
    }
  }

  lemma CollectingMovesOn(d: Deployment, took: Took, base: Sys, s: Sys, chain: seq<Proposal>, b: Proposal,
                          ballots: Ballots, s': Sys)
    requires d.Valid() && EnoughHonest(d) && Reachable(d, s) && InStep(d, took, base, chain) && Linked(chain + [b])
    requires AllVoted(d, s, base, chain + [b]) && AllVotedFor(d, s.log, b.blockHash)
    requires OnceEach(Collections(ballots)) && Does(d, s, Collections(ballots), s')
    requires CompleteBallots(d, s.log, b, ballots)
    ensures Reachable(d, s') && s'.nodes.Keys == d.honest && Inv(d, s')
    ensures AllCertified(d, Taken(took, Collectors(ballots), |chain|), s', base, chain + [b])
  {
    hide Reachable, Perform, Deployment.Valid, InStep, Linked, AllVoted, AllVotedFor, AllCertified, Collections,
         OnHonest, OnceEach, HoldsAllVotes, AllDeliverable, HoldsQuorum, EnoughHonest, Inv, Taken, Collectors;
    BallotsSuffice(d, s.log, b, ballots);
    CollectPhase(d, took, base, s, chain, b, ballots);
    DoesReachable(d, s, Collections(ballots), s');
    ReachableInv(d, s');
  }

  lemma ChecksDeliverable(d: Deployment, log: Log, order: seq<NodeId>)
    ensures AllDeliverable(d, log, Each(order, CommitCheck))
    ensures forall k | 0 <= k < |order| :: Each(order, CommitCheck)[k].1 == CommitCheck
  {
  }

  lemma CheckingMovesOn(d: Deployment, took: Took, more: Took, base: Sys, s: Sys, chain: seq<Proposal>, b: Proposal,
                        order: seq<NodeId>, s': Sys)
    requires d.Valid() && Reachable(d, s) && InStep(d, took, base, chain) && Linked(chain + [b]) && Inv(d, s)
    requires AllCertified(d, more, s, base, chain + [b]) && OneMore(took, more, |chain|)
    requires Everybody(d.honest, Each(order, CommitCheck)) && Does(d, s, Each(order, CommitCheck), s')
    ensures Reachable(d, s') && InStep(d, more, s', chain + [b]) && SamePools(base, s')
  {
    hide Reachable, Perform, Deployment.Valid, Linked, AllCertified, Each, Everybody, OnHonest, AllDeliverable, Inv,
         InStep, SamePools, OneMore;
    ChecksDeliverable(d, s.log, order);
    CommitPhase(d, took, more, base, s, chain, b, Each(order, CommitCheck));
    DoesReachable(d, s, Each(order, CommitCheck), s');
  }

  /** Every mempool is what it was, but the leader's is empty. */
  predicate AfterPacking(s: Sys, leader: NodeId, s': Sys) {
    SamePools(Packed(s, leader), s')
  }

  /** A lockstep view in which the leader packs nothing already committed takes every node one block
    further: the block is the leader's sorted mempool, everybody votes for it, the votes cast add up to a
    certificate at everybody who collects, and every node commits the third last block if it collected the
    votes for the last two. */
  lemma RoundMovesOn(d: Deployment, took: Took, s: Sys, chain: seq<Proposal>, turn: Turn, c: Course)
    requires d.Valid() && EnoughHonest(d) && Reachable(d, s) && InStep(d, took, s, chain)
    requires IsRound(d, |chain|, turn, s, c)
    requires Leads(took, Leader(d, |chain|), |chain|) && Unspent(c.submitted, Leader(d, |chain|))
    ensures Reachable(d, c.checked)
    ensures InStep(d, Taken(took, Collectors(turn.ballots), |chain|), c.checked, chain + [c.block])
    ensures Carries(d, c, |chain|) && AfterPacking(c.submitted, Leader(d, |chain|), c.checked)
  {
    hide Reachable, Perform, Deployment.Valid, InStep, NextProposal, AllProposing, AllVoted, AllCertified, Packed,
         SortTxs, Linked, Does, Everybody, OnceEach, Collections, Active, GenuineOption, SamePools, Inv,
         CompleteBallots, AllVotedFor, EnoughHonest, FreshToAll, Unspent, Leader, Leads, Taken, OneMore,
         Collectors;
    var leader, b := Leader(d, |chain|), c.block;
    OpeningMovesOn(d, took, s, chain, turn, c);
    var base := Packed(c.submitted, leader);
    LastBlock(d, chain, b);
    ProposalLeader(d, chain, b);
    PackedInStep(d, took, c.submitted, chain, leader);
    UnspentIsFresh(d, took, c.submitted, chain, leader, b);
    VotingMovesOn(d, took, base, c.proposed, chain, b, turn.voters, c.voted);
    CollectingMovesOn(d, took, base, c.voted, chain, b, turn.ballots, c.collected);
    TakenIsOneMore(took, Collectors(turn.ballots), |chain|);
    CheckingMovesOn(d, took, Taken(took, Collectors(turn.ballots), |chain|), base, c.collected, chain, b, turn.checkers, c.checked);
  }

  lemma ProposalLeader(d: Deployment, chain: seq<Proposal>, b: Proposal)
    requires NextProposal(d, chain, b)
    ensures b.leader == Leader(d, |chain|)
  {
  }

  /** What a block of a lockstep run is. */
  ghost predicate Carries(d: Deployment, c: Course, j: nat) {
    && c.block.leader == Leader(d, j) && Leader(d, j) in c.submitted.nodes
    && c.block.txs == SortTxs(c.submitted.nodes[Leader(d, j)].pendingTxs)
  }

  // ------------------------------------------------------------------ and otherwise it does not

  /** Votes in the log after some calls were there before or cast by one of them. */
  lemma {:induction false} LogOfPerform(d: Deployment, s: Sys, calls: Calls, v: Vote) returns (k: nat)
    requires d.Valid() && s.nodes.Keys == d.honest && OnHonest(d, calls) && OnceEach(calls)
    requires v in Perform(d, s, calls).log && v !in s.log
    ensures k < |calls| && calls[k].0 in s.nodes && ParamsOf(d, calls[k].0).Valid()
    ensures v in CastBy(ParamsOf(d, calls[k].0), s.nodes[calls[k].0], calls[k].1)
  {
    hide After, CastBy, Deployment.Valid;
    var init := calls[..|calls| - 1];
    var s1, g := Perform(d, s, init), calls[|calls| - 1].0;
    ParamsValid(d, g);
    OthersUntouched(d, s, init, g);
    if v in s1.log {
      k := LogOfPerform(d, s, init, v);
    } else {
      k := |calls| - 1;
    }
  }

  lemma NotVotedYet(d: Deployment, s: Sys, base: Sys, h: NodeId, chain: seq<Proposal>, b: Proposal, took: set<nat>)
    requires Inv(d, s) && h in s.nodes && h in base.nodes && NextProposal(d, chain, b)
    requires Proposing(s.nodes[h], base.nodes[h], chain, b, took)
    ensures Vote(h, b.blockHash) !in s.log
  {
    hide Lawful, QCsBacked, BlocksFiled, ChildrenIndexed, CommitsFinal, SameRest, TopQC, Verified;
    assert NodeInv(d, h, s.log, s.nodes[h]);
    HashesDiffer(chain + [b], |chain|, |chain|);
    assert (chain + [b])[|chain|] == b;
  }

  /** Who votes in a lockstep view: exactly the nodes that have committed nothing of what the leader packs. */
  lemma RoundVotesIff(d: Deployment, took: Took, s: Sys, chain: seq<Proposal>, turn: Turn, c: Course, h: NodeId)
    requires d.Valid() && Reachable(d, s) && InStep(d, took, s, chain) && IsRound(d, |chain|, turn, s, c)
    requires Leads(took, Leader(d, |chain|), |chain|) && h in d.honest
    ensures Vote(h, c.block.blockHash) in c.voted.log <==> UnspentAt(c.submitted, Leader(d, |chain|), h)
  {
    hide Reachable, Perform, Deployment.Valid, InStep, NextProposal, AllProposing, Packed, SortTxs, Does,
         Everybody, OnceEach, Collections, Active, GenuineOption, Inv, CompleteBallots, UnspentAt, Leader, Leads,
         FreshAt, VotedAt;
    OpeningMovesOn(d, took, s, chain, turn, c);
    var leader := Leader(d, |chain|);
    PackedInStep(d, took, c.submitted, chain, leader);
    ReachableInv(d, c.proposed);
    StepKeys(d, c.submitted, took, chain);
    PackedFreshAt(d, took, c.submitted, chain, leader, c.block, h);
    VotesOfPhase(d, took, Packed(c.submitted, leader), c.proposed, chain, c.block, turn.voters, c.voted, h);
  }

  lemma StepKeys(d: Deployment, s: Sys, took: Took, chain: seq<Proposal>)
    requires InStep(d, took, s, chain)
    ensures s.nodes.Keys == d.honest
  {
  }

  lemma VotesOfPhase(d: Deployment, took: Took, base: Sys, s: Sys, chain: seq<Proposal>, b: Proposal,
                     order: seq<NodeId>, s': Sys, h: NodeId)
    requires d.Valid() && Inv(d, s) && InStep(d, took, base, chain) && NextProposal(d, chain, b) && h in d.honest
    requires AllProposing(d, took, s, base, chain, b)
    requires Everybody(d.honest, Each(order, VoteOn(b))) && Does(d, s, Each(order, VoteOn(b)), s')
    ensures Vote(h, b.blockHash) in s'.log <==> FreshAt(base, h, b)
    ensures !FreshAt(base, h, b) ==> VotedAt(s', h, chain + [b], |chain|)
  {
    hide Perform, NextProposal, NodeInStep, Proposing, HasVoted, After, CastBy, OnceEach, Calling, Deployment.Valid,
         Linked, FreshTxs, Inv, VotedUpTo;
    var calls := Each(order, VoteOn(b));
    var k := EndsWithOwnCall(d, s, d.honest, calls, h);
    NodeVotesIff(d, h, s.nodes[h], base.nodes[h], chain, b, TookBy(took, h));
    if Vote(h, b.blockHash) in s'.log {
      NotVotedYet(d, s, base, h, chain, b, TookBy(took, h));
      var j := LogOfPerform(d, s, calls, Vote(h, b.blockHash));
      var g := calls[j].0;
      NodeVotesIff(d, g, s.nodes[g], base.nodes[g], chain, b, TookBy(took, g));
    }
  }

  /** A node that has not voted for the last block does not stand at the end of the chain. */
  lemma LockTells(s: State, chain: seq<Proposal>)
    requires Linked(chain) && |chain| >= 2 && VotedUpTo(s, chain, |chain| - 1)
    ensures !VotedUpTo(s, chain, |chain|)
  {
    if |chain| > 2 {
      HashesDiffer(chain, |chain| - 2, |chain| - 3);
    }
  }

  /** Collecting and checking for commits change nothing a vote changes. */
  lemma LaterPhasesCastNothing(d: Deployment, chain: seq<Proposal>, v: nat, turn: Turn, s: Sys, c: Course, h: NodeId)
    requires d.Valid() && IsRound(d, v, turn, s, c) && h in d.honest && v <= |chain| && VotedAt(c.voted, h, chain, v)
    ensures VotedAt(c.checked, h, chain, v)
  {
    hide Perform, OnceEach, Calling, Deployment.Valid, VotedUpTo, Active, CompleteBallots, Leader, Collected,
         CommitChecked, After, CastBy, OnHonest;
    CollectorsCall(d, turn.ballots);
    if h in Collectors(turn.ballots) {
      var k := EndsWithOwnCall(d, c.voted, Collectors(turn.ballots), Collections(turn.ballots), h);
      AfterCollecting(ParamsOf(d, h), c.voted.nodes[h], turn.ballots[k].1);
      CollectedVotes(ParamsOf(d, h), c.voted.nodes[h], turn.ballots[k].1);
    } else {
      OthersUntouched(d, c.voted, Collections(turn.ballots), h);
    }
    SameVotes(c.voted.nodes[h], c.collected.nodes[h], chain, v);
    var j := EndsWithOwnCall(d, c.collected, d.honest, Each(turn.checkers, CommitCheck), h);
    AfterCommitCheck(ParamsOf(d, h), c.collected.nodes[h]);
    CheckedVotes(c.collected.nodes[h]);
    SameVotes(c.collected.nodes[h], c.checked.nodes[h], chain, v);
  }

  lemma CollectedVotes(p: Params, s: State, votes: seq<Endorsement<Message>>)
    ensures var t := Collected(p, s, votes); t.view == s.view && t.votedViews == s.votedViews && t.lock == s.lock
  {
  }

  lemma CheckedVotes(s: State)
    ensures var t := CommitChecked(s); t.view == s.view && t.votedViews == s.votedViews && t.lock == s.lock
  {
    CommitFrame(s, SortByView(Candidates(s, s.blockOrder)));
  }

  /** The exact condition of progress: a lockstep view takes all nodes one block further if and only if
    its leader packs no nonce any of them has committed. */
  lemma RoundMovesOnIff(d: Deployment, took: Took, s: Sys, chain: seq<Proposal>, turn: Turn, c: Course)
    requires d.Valid() && EnoughHonest(d) && Reachable(d, s) && InStep(d, took, s, chain)
    requires IsRound(d, |chain|, turn, s, c)
    requires Leads(took, Leader(d, |chain|), |chain|)
    ensures InStep(d, Taken(took, Collectors(turn.ballots), |chain|), c.checked, chain + [c.block]) <==>
            Unspent(c.submitted, Leader(d, |chain|))
  {
    hide Reachable, Perform, Deployment.Valid, IsRound, Leader, NodeInStep, Linked, UnspentAt, Leads, Taken,
         Collectors, EnoughHonest, Carries, AfterPacking;
    var leader, more := Leader(d, |chain|), Taken(took, Collectors(turn.ballots), |chain|);
    if Unspent(c.submitted, leader) {
      RoundMovesOn(d, took, s, chain, turn, c);
    } else if InStep(d, more, c.checked, chain + [c.block]) {
      SubmittedKeys(d, took, s, chain, turn, c);
      var h :| h in c.submitted.nodes && !UnspentAt(c.submitted, leader, h);
      RefuserStaysBehind(d, took, s, chain, turn, c, h);
      NodeAtEnd(d, c.checked.nodes[h], chain + [c.block], TookBy(more, h));
      LockTells(c.checked.nodes[h], chain + [c.block]);
      assert false;
    }
  }

  lemma SubmittedKeys(d: Deployment, took: Took, s: Sys, chain: seq<Proposal>, turn: Turn, c: Course)
    requires d.Valid() && Reachable(d, s) && InStep(d, took, s, chain) && IsRound(d, |chain|, turn, s, c)
    requires Leads(took, Leader(d, |chain|), |chain|)
    ensures c.submitted.nodes.Keys == d.honest && Leader(d, |chain|) in c.submitted.nodes
  {
    hide Reachable, Perform, Deployment.Valid, IsRound, Leader, NodeInStep, Linked, Leads;
    OpeningMovesOn(d, took, s, chain, turn, c);
  }

  lemma NodeAtEnd(d: Deployment, s: State, chain: seq<Proposal>, took: set<nat>)
    requires NodeInStep(d, s, chain, took)
    ensures VotedUpTo(s, chain, |chain|)
  {
  }

  lemma RefuserStaysBehind(d: Deployment, took: Took, s: Sys, chain: seq<Proposal>, turn: Turn, c: Course, h: NodeId)
    requires d.Valid() && Reachable(d, s) && InStep(d, took, s, chain) && IsRound(d, |chain|, turn, s, c)
    requires Leads(took, Leader(d, |chain|), |chain|)
    requires h in d.honest && h in c.submitted.nodes && !UnspentAt(c.submitted, Leader(d, |chain|), h)
    ensures chain != [] && VotedAt(c.checked, h, chain + [c.block], |chain|) && Linked(chain + [c.block])
  {
    hide Reachable, Perform, Deployment.Valid, NextProposal, AllProposing, Packed, SortTxs, Everybody, OnHonest,
         OnceEach, Collections, Active, GenuineOption, Inv, CompleteBallots, UnspentAt, Leader, Leads, FreshAt,
         NodeInStep, Linked, VotedUpTo;
    var leader := Leader(d, |chain|);
    OpeningMovesOn(d, took, s, chain, turn, c);
    LastBlock(d, chain, c.block);
    PackedInStep(d, took, c.submitted, chain, leader);
    ReachableInv(d, c.proposed);
    PackedFreshAt(d, took, c.submitted, chain, leader, c.block, h);
    VotesOfPhase(d, took, Packed(c.submitted, leader), c.proposed, chain, c.block, turn.voters, c.voted, h);
    LaterPhasesCastNothing(d, chain + [c.block], |chain|, turn, s, c, h);
    NothingSpentYet(d, c.submitted, leader, h, chain, TookBy(took, h));
  }

  lemma NothingSpentYet(d: Deployment, s: Sys, leader: NodeId, h: NodeId, chain: seq<Proposal>, took: set<nat>)
    requires leader in s.nodes && h in s.nodes && NodeInStep(d, s.nodes[h], chain, took)
    ensures chain == [] ==> UnspentAt(s, leader, h)
  {
  }

  // ------------------------------------------------------------------ any number of views

  function SysAt(init: Sys, courses: seq<Course>, k: nat): Sys
    requires k <= |courses|
  {
    if k == 0 then init else courses[k - 1].checked
  }

  function BlocksOf(courses: seq<Course>): (chain: seq<Proposal>)
    ensures |chain| == |courses|
  {
    seq(|courses|, i requires 0 <= i < |courses| => courses[i].block)
  }

  /** Who collected what in the first k views. */
  function TookAt(d: Deployment, turns: seq<Turn>, k: nat): Took
    requires k <= |turns|
  {
    if k == 0 then map h | h in d.honest :: {} else Taken(TookAt(d, turns, k - 1), Collectors(turns[k - 1].ballots), k - 1)
  }

  lemma {:induction false} TookIff(d: Deployment, turns: seq<Turn>, k: nat, h: NodeId, i: nat)
    requires k <= |turns| && h in d.honest
    ensures TookAt(d, turns, k).Keys == d.honest
    ensures i in TookBy(TookAt(d, turns, k), h) <==> i < k && h in Collectors(turns[i].ballots)
  {
    if k > 0 {
      hide Collectors;
      TookIff(d, turns, k - 1, h, i);
    }
  }

  lemma {:induction false} TookPrefix(d: Deployment, turns: seq<Turn>, more: seq<Turn>, k: nat)
    requires k <= |turns| && turns <= more
    ensures TookAt(d, more, k) == TookAt(d, turns, k)
  {
    if k > 0 {
      TookPrefix(d, turns, more, k - 1);
    }
  }

  /** View k is held, by a leader that collected the votes of the view before. */
  ghost predicate RoundAt(d: Deployment, init: Sys, turns: seq<Turn>, courses: seq<Course>, k: nat)
    requires k < |courses| == |turns|
  {
    IsRound(d, k, turns[k], SysAt(init, courses, k), courses[k]) && (k == 0 || Leader(d, k) in Collectors(turns[k - 1].ballots))
  }

  /** Lockstep views from the start, view k being the k-th. */
  ghost predicate IsLockstep(d: Deployment, init: Sys, turns: seq<Turn>, courses: seq<Course>) {
    && Init(d, init) && |turns| == |courses|
    && forall k | 0 <= k < |courses| :: RoundAt(d, init, turns, courses, k)
  }

  lemma RoundLed(d: Deployment, init: Sys, turns: seq<Turn>, courses: seq<Course>, k: nat)
    requires d.Valid() && IsLockstep(d, init, turns, courses) && k < |courses|
    ensures IsRound(d, k, turns[k], SysAt(init, courses, k), courses[k]) && Leads(TookAt(d, turns, k), Leader(d, k), k)
  {
    hide IsRound, Collectors, Deployment.Valid, Leader;
    assert RoundAt(d, init, turns, courses, k);
    LeaderProposed(d, k, turns[k], SysAt(init, courses, k), courses[k]);
    if k > 0 {
      TookIff(d, turns, k, Leader(d, k), k - 1);
    }
  }

  lemma LeaderProposed(d: Deployment, v: nat, turn: Turn, s: Sys, c: Course)
    requires IsRound(d, v, turn, s, c)
    ensures Leader(d, v) in d.honest
  {
    hide Perform, Leader, Everybody, CompleteBallots, OnceEach;
    CallerIsHonest(d, Leader(d, v), Protocol.Propose(v));
  }

  lemma NothingYet(d: Deployment, s: Sys, turns: seq<Turn>)
    requires d.Valid() && Init(d, s)
    ensures Reachable(d, s) && InStep(d, TookAt(d, turns, 0), s, [])
  {
    hide Reachable, NodeInStep, Deployment.Valid;
    StartIsReachable(d, s);
    NewNodeInStep(d);
    NothingLinked();
  }

  lemma StartIsReachable(d: Deployment, s: Sys)
    requires d.Valid() && Init(d, s)
    ensures Reachable(d, s)
  {
    hide Init, Deployment.Valid, StepAt;
    assert Ends(d, [s], s);
  }

  lemma NewNodeInStep(d: Deployment)
    ensures NodeInStep(d, InitialState, [], {})
  {
  }

  lemma NothingLinked()
    ensures Linked([])
  {
  }

  /** Every honest node has committed exactly the blocks for whose child and grandchild it collected votes. */
  predicate AllCommitted(d: Deployment, took: Took, s: Sys, chain: seq<Proposal>) {
    && Linked(chain) && s.nodes.Keys == d.honest
    && forall h | h in s.nodes :: s.nodes[h].committed == Picks(chain, TookBy(took, h), Settled(|chain|))
  }

  lemma CommittedInStep(d: Deployment, took: Took, s: Sys, chain: seq<Proposal>)
    requires InStep(d, took, s, chain)
    ensures AllCommitted(d, took, s, chain)
  {
    forall h | h in d.honest ensures s.nodes[h].committed == Picks(chain, TookBy(took, h), Settled(|chain|)) {
      assert NodeInStep(d, s.nodes[h], chain, TookBy(took, h));
    }
  }

  lemma BlocksSplit(courses: seq<Course>, k: nat)
    requires k < |courses|
    ensures BlocksOf(courses[..k + 1]) == BlocksOf(courses[..k]) + [courses[k].block]
  {
  }

  /** The lockstep run has everybody in step after k views. */
  ghost predicate InStepAt(d: Deployment, init: Sys, turns: seq<Turn>, courses: seq<Course>, k: nat)
    requires k <= |courses| == |turns|
  {
    InStep(d, TookAt(d, turns, k), SysAt(init, courses, k), BlocksOf(courses[..k]))
  }

  /** No leader of the first k views packs what somebody has committed. */
  predicate AllUnspent(d: Deployment, courses: seq<Course>, k: nat)
    requires k <= |courses|
  {
    forall j | 0 <= j < k :: Unspent(courses[j].submitted, Leader(d, j))
  }

  /** The first k blocks are their leaders' sorted mempools. */
  ghost predicate AllCarry(d: Deployment, courses: seq<Course>, k: nat)
    requires k <= |courses|
  {
    forall j | 0 <= j < k :: Carries(d, courses[j], j)
  }

  lemma Lengths(d: Deployment, init: Sys, turns: seq<Turn>, courses: seq<Course>)
    requires IsLockstep(d, init, turns, courses)
    ensures |turns| == |courses|
  {
    hide RoundAt, Init;
  }

  lemma ViewMovesOn(d: Deployment, init: Sys, turns: seq<Turn>, courses: seq<Course>, k: nat)
    requires d.Valid() && EnoughHonest(d) && IsLockstep(d, init, turns, courses) && k < |courses|
    requires Reachable(d, SysAt(init, courses, k)) && InStepAt(d, init, turns, courses, k)
    ensures InStepAt(d, init, turns, courses, k + 1) <==> Unspent(courses[k].submitted, Leader(d, k))
    ensures Unspent(courses[k].submitted, Leader(d, k)) ==>
      && Reachable(d, SysAt(init, courses, k + 1)) && Carries(d, courses[k], k)
      && AfterPacking(courses[k].submitted, Leader(d, k), SysAt(init, courses, k + 1))
  {
    hide Reachable, Deployment.Valid, EnoughHonest, Leader, IsRound, InStep, Unspent, Init, BlocksOf, Carries,
         AfterPacking, Leads, Taken, Collectors, RoundAt;
    RoundLed(d, init, turns, courses, k);
    BlocksSplit(courses, k);
    RoundMovesOnIff(d, TookAt(d, turns, k), SysAt(init, courses, k), BlocksOf(courses[..k]), turns[k], courses[k]);
    if Unspent(courses[k].submitted, Leader(d, k)) {
      RoundMovesOn(d, TookAt(d, turns, k), SysAt(init, courses, k), BlocksOf(courses[..k]), turns[k], courses[k]);
    }
  }

  lemma BeginsInStep(d: Deployment, init: Sys, turns: seq<Turn>, courses: seq<Course>)
    requires d.Valid() && IsLockstep(d, init, turns, courses)
    ensures Reachable(d, SysAt(init, courses, 0)) && InStepAt(d, init, turns, courses, 0)
  {
    hide Reachable, Deployment.Valid, InStep, RoundAt, Init;
    NothingYet(d, init, turns);
    NoBlocks(courses);
  }

  /** Progress: in every lockstep run in which no leader packs a nonce committed before, whatever the order
    of calls within its phases and whoever collects votes when, every honest node commits exactly the blocks
    for whose child and grandchild it collected the votes, linked from genesis; each block carries its
    leader's sorted mempool. */
  lemma {:induction false} Progress(d: Deployment, init: Sys, turns: seq<Turn>, courses: seq<Course>, k: nat)
    requires d.Valid() && EnoughHonest(d) && IsLockstep(d, init, turns, courses) && k <= |courses|
    requires AllUnspent(d, courses, k)
    ensures Reachable(d, SysAt(init, courses, k)) && InStepAt(d, init, turns, courses, k)
    ensures AllCommitted(d, TookAt(d, turns, k), SysAt(init, courses, k), BlocksOf(courses[..k]))
    ensures AllCarry(d, courses, k)
  {
    hide Reachable, Deployment.Valid, EnoughHonest, Leader, IsLockstep, InStep, Unspent, BlocksOf, AfterPacking,
         TookAt, SysAt, Carries, AllCommitted;
    Lengths(d, init, turns, courses);
    if k == 0 {
      BeginsInStep(d, init, turns, courses);
    } else {
      Progress(d, init, turns, courses, k - 1);
      ViewMovesOn(d, init, turns, courses, k - 1);
    }
    CommittedInStep(d, TookAt(d, turns, k), SysAt(init, courses, k), BlocksOf(courses[..k]));
  }

  /** Exactly when no leader packs a nonce committed before does a lockstep run stay in step. */
  lemma {:induction false} ProgressIff(d: Deployment, init: Sys, turns: seq<Turn>, courses: seq<Course>, k: nat)
    requires d.Valid() && EnoughHonest(d) && IsLockstep(d, init, turns, courses) && k <= |courses|
    ensures (forall j | 0 <= j <= k :: InStepAt(d, init, turns, courses, j)) <==> AllUnspent(d, courses, k)
  {
    hide Reachable, Deployment.Valid, EnoughHonest, Leader, IsLockstep, InStepAt, Unspent, SysAt, Carries,
         AllCommitted, AfterPacking, AllCarry;
    Lengths(d, init, turns, courses);
    if AllUnspent(d, courses, k) {
      forall j | 0 <= j <= k ensures InStepAt(d, init, turns, courses, j) {
        Progress(d, init, turns, courses, j);
      }
    } else if forall j | 0 <= j <= k :: InStepAt(d, init, turns, courses, j) {
      ProgressIff(d, init, turns, courses, k - 1);
      Progress(d, init, turns, courses, k - 1);
      ViewMovesOn(d, init, turns, courses, k - 1);
      assert false;
    }
  }

  /** So a node that collects the votes of every view commits every block but the last two, and all such
    nodes the same. */
  lemma AlwaysCollecting(d: Deployment, init: Sys, turns: seq<Turn>, courses: seq<Course>, k: nat, h: NodeId)
    requires d.Valid() && EnoughHonest(d) && IsLockstep(d, init, turns, courses) && k <= |courses|
    requires AllUnspent(d, courses, k)
    requires h in d.honest && forall j | 0 <= j < k :: h in Collectors(turns[j].ballots)
    ensures h in SysAt(init, courses, k).nodes
    ensures SysAt(init, courses, k).nodes[h].committed == BlocksOf(courses[..k])[..Settled(k)]
  {
    hide Reachable, Deployment.Valid, EnoughHonest, Leader, IsLockstep, InStepAt, AllUnspent, AllCarry, Collectors,
         Linked, Picks, TookAt;
    Lengths(d, init, turns, courses);
    Progress(d, init, turns, courses, k);
    var chain, took := BlocksOf(courses[..k]), TookBy(TookAt(d, turns, k), h);
    forall i | 0 <= i < |chain| ensures i in took {
      TookIff(d, turns, k, h, i);
    }
    FullPick(chain, took);
  }

  lemma FullPick(chain: seq<Proposal>, took: set<nat>)
    requires forall i | 0 <= i < |chain| :: i in took
    ensures Picks(chain, took, Settled(|chain|)) == chain[..Settled(|chain|)]
  {
    if |chain| >= 2 {
      AllPicked(chain, took, |chain| - 2);
    }
  }

  lemma NoBlocks(courses: seq<Course>)
    ensures BlocksOf(courses[..0]) == []
  {
  }

  // ------------------------------------------------------------------ distinct nonces

  function TxsOf(inbox: Inbox): (txs: seq<Tx>)
    ensures |txs| == |inbox|
  {
    seq(|inbox|, k requires 0 <= k < |inbox| => inbox[k].1)
  }

  /** Everything clients send, in order. */
  function Sent(turns: seq<Turn>): seq<Tx> {
    if turns == [] then [] else Sent(turns[..|turns| - 1]) + TxsOf(turns[|turns| - 1].inbox)
  }

  lemma SentSplit(turns: seq<Turn>, k: nat)
    requires k < |turns|
    ensures Sent(turns[..k + 1]) == Sent(turns[..k]) + TxsOf(turns[k].inbox)
  {
    assert turns[..k + 1][..k] == turns[..k];
  }

  lemma FreshConcat(a: seq<Tx>, b: seq<Tx>)
    ensures Nonces(a + b) == Nonces(a) + Nonces(b)
    ensures FreshTxs({}, a + b) <==> FreshTxs({}, a) && FreshTxs(Nonces(a), b)
  {
    var all := a + b;
    assert forall i | 0 <= i < |a| :: all[i] == a[i];
    assert forall i | 0 <= i < |b| :: all[|a| + i] == b[i];
    if FreshTxs({}, all) {
      forall i, j | 0 <= i < j < |a| ensures NonceKey(a[i]) != NonceKey(a[j]) {
        assert NonceKey(all[i]) != NonceKey(all[j]);
      }
      forall i, j | 0 <= i < j < |b| ensures NonceKey(b[i]) != NonceKey(b[j]) {
        assert NonceKey(all[|a| + i]) != NonceKey(all[|a| + j]);
      }
      forall i | 0 <= i < |b| ensures NonceKey(b[i]) !in Nonces(a) {
        assert forall j | 0 <= j < |a| :: NonceKey(all[j]) != NonceKey(all[|a| + i]);
      }
    }
    if FreshTxs({}, a) && FreshTxs(Nonces(a), b) {
      forall i | 0 <= i < |all| ensures all[i].Commit? {
        assert all[i] == if i < |a| then a[i] else b[i - |a|];
      }
      forall i, j | 0 <= i < j < |all| ensures NonceKey(all[i]) != NonceKey(all[j]) {
        assert all[i] == if i < |a| then a[i] else b[i - |a|];
        assert all[j] == if j < |a| then a[j] else b[j - |a|];
      }
    }
  }

  lemma {:induction false} SentPrefixFresh(turns: seq<Turn>, k: nat)
    requires k <= |turns| && FreshTxs({}, Sent(turns))
    ensures FreshTxs({}, Sent(turns[..k]))
    decreases |turns| - k
  {
    hide FreshTxs;
    if k == |turns| {
      assert turns[..k] == turns;
    } else {
      SentPrefixFresh(turns, k + 1);
      SentSplit(turns, k);
      FreshConcat(Sent(turns[..k]), TxsOf(turns[k].inbox));
    }
  }

  lemma SentFresh(turns: seq<Turn>, k: nat)
    requires k < |turns| && FreshTxs({}, Sent(turns))
    ensures FreshTxs(Nonces(Sent(turns[..k])), TxsOf(turns[k].inbox))
    ensures Nonces(Sent(turns[..k + 1])) == Nonces(Sent(turns[..k])) + Nonces(TxsOf(turns[k].inbox))
  {
    hide FreshTxs, Nonces;
    SentPrefixFresh(turns, k + 1);
    SentSplit(turns, k);
    FreshConcat(Sent(turns[..k]), TxsOf(turns[k].inbox));
  }

  function PoolOf(s: State): set<string> {
    Nonces(s.pendingTxs)
  }

  /** Nonces in mempools have been sent, are on no block yet, and are in one mempool only. */
  predicate Apart(nodes: map<NodeId, State>, taken: set<string>, sent: set<string>) {
    && taken <= sent
    && (forall h | h in nodes :: PoolOf(nodes[h]) <= sent && PoolOf(nodes[h]) !! taken)
    && (forall g, h | g in nodes && h in nodes && g != h :: PoolOf(nodes[g]) !! PoolOf(nodes[h]))
  }

  lemma SubmittedPool(s: State, tx: Tx)
    requires tx.Commit?
    ensures PoolOf(s) <= PoolOf(Submitted(s, tx)) <= PoolOf(s) + {NonceKey(tx)}
  {
    NoncesSplit(s.pendingTxs, tx);
  }

  lemma SubmitApart(nodes: map<NodeId, State>, h: NodeId, tx: Tx, taken: set<string>, sent: set<string>)
    requires Apart(nodes, taken, sent) && h in nodes && tx.Commit? && NonceKey(tx) !in sent
    ensures Apart(nodes[h := Submitted(nodes[h], tx)], taken, sent + {NonceKey(tx)})
  {
    hide PoolOf, Submitted;
    SubmittedPool(nodes[h], tx);
  }

  lemma {:induction false} SubmissionsApart(d: Deployment, s: Sys, inbox: Inbox, taken: set<string>, sent: set<string>)
    requires d.Valid() && s.nodes.Keys == d.honest && OnHonest(d, Submissions(inbox))
    requires Apart(s.nodes, taken, sent) && FreshTxs(sent, TxsOf(inbox))
    ensures Apart(Perform(d, s, Submissions(inbox)).nodes, taken, sent + Nonces(TxsOf(inbox)))
  {
    hide Called, Deployment.Valid, Apart, Submitted, FreshTxs, Nonces;
    if inbox == [] {
      NoNonces(TxsOf(inbox));
      assert sent + {} == sent;
    } else {
      var init, last := inbox[..|inbox| - 1], inbox[|inbox| - 1];
      var calls := Submissions(inbox);
      assert calls[..|calls| - 1] == Submissions(init) && calls[|calls| - 1] == (last.0, Submit(last.1));
      assert TxsOf(inbox) == TxsOf(init) + [last.1];
      FreshSplit(sent, TxsOf(init), last.1);
      NoncesSplit(TxsOf(init), last.1);
      SubmissionsApart(d, s, init, taken, sent);
      var s1 := Perform(d, s, Submissions(init));
      ParamsValid(d, last.0);
      SubmitCalled(d, s1, last.0, last.1);
      SubmitApart(s1.nodes, last.0, last.1, taken, sent + Nonces(TxsOf(init)));
      assert sent + Nonces(TxsOf(init)) + {NonceKey(last.1)} == sent + Nonces(TxsOf(inbox));
    }
  }

  lemma NoNonces(txs: seq<Tx>)
    requires txs == []
    ensures Nonces(txs) == {}
  {
  }

  lemma PackedPools(s: Sys, leader: NodeId, nodes: map<NodeId, State>, h: NodeId)
    requires leader in s.nodes && nodes.Keys == s.nodes.Keys && h in nodes
    requires SamePool(nodes[h], Packed(s, leader).nodes[h])
    ensures PoolOf(nodes[h]) == if h == leader then {} else PoolOf(s.nodes[h])
  {
  }

  /** Packing moves the leader's nonces from its mempool to the chain. */
  lemma PackedApart(s: Sys, leader: NodeId, taken: set<string>, sent: set<string>, s': Sys)
    requires Apart(s.nodes, taken, sent) && leader in s.nodes && AfterPacking(s, leader, s')
    ensures Apart(s'.nodes, taken + PoolOf(s.nodes[leader]), sent)
  {
    hide PoolOf, SamePool, Packed;
    PackedKeys(s, leader);
    forall h | h in s'.nodes
      ensures PoolOf(s'.nodes[h]) == if h == leader then {} else PoolOf(s.nodes[h])
    {
      PackedPools(s, leader, s'.nodes, h);
    }
  }

  lemma SeenIsTaken(d: Deployment, s: State, chain: seq<Proposal>, took: set<nat>)
    requires NodeInStep(d, s, chain, took)
    ensures s.seenNonces <= ChainNonces(chain)
  {
    PicksIn(chain, took, Settled(|chain|));
  }

  lemma ApartIsUnspent(d: Deployment, took: Took, s: Sys, chain: seq<Proposal>, leader: NodeId, sent: set<string>)
    requires InStep(d, took, s, chain) && leader in s.nodes && Apart(s.nodes, ChainNonces(chain), sent)
    ensures Unspent(s, leader)
  {
    hide NodeInStep, Linked, ChainNonces, Nonces;
    forall h | h in s.nodes ensures UnspentAt(s, leader, h) {
      SeenIsTaken(d, s.nodes[h], chain, TookBy(took, h));
    }
  }

  lemma NextChainNonces(chain: seq<Proposal>, b: Proposal)
    ensures ChainNonces(chain + [b]) == ChainNonces(chain) + Nonces(b.txs)
  {
    hide ChainNonces, Nonces;
    var all := chain + [b];
    ChainNoncesGrow(all, |chain|);
    assert all[..|chain| + 1] == all && all[..|chain|] == chain && all[|chain|] == b;
  }

  /** A view of fresh transactions has an unspent leader and keeps mempools, chain and what is to come apart. */
  lemma RoundKeepsApart(d: Deployment, took: Took, s: Sys, chain: seq<Proposal>, turn: Turn, c: Course,
                        sent: set<string>)
    requires d.Valid() && EnoughHonest(d) && Reachable(d, s) && InStep(d, took, s, chain)
    requires IsRound(d, |chain|, turn, s, c)
    requires Leads(took, Leader(d, |chain|), |chain|)
    requires Apart(s.nodes, ChainNonces(chain), sent) && FreshTxs(sent, TxsOf(turn.inbox))
    ensures Unspent(c.submitted, Leader(d, |chain|))
    ensures Apart(c.checked.nodes, ChainNonces(chain + [c.block]), sent + Nonces(TxsOf(turn.inbox)))
  {
    hide Reachable, Perform, Deployment.Valid, EnoughHonest, Leader, NodeInStep, Packed, SortTxs, Linked,
         Everybody, CompleteBallots, OnHonest, OnceEach, Unspent, FreshTxs, Nonces, ChainNonces, Apart, SamePools,
         Submissions, Each, Collections, Leads, Taken, Collectors;
    var leader := Leader(d, |chain|);
    SubmissionsKeep(d, took, s, chain, turn.inbox);
    SubmissionsApart(d, s, turn.inbox, ChainNonces(chain), sent);
    LeaderIsThere(d, |chain|, turn, s, c);
    ApartIsUnspent(d, took, c.submitted, chain, leader, sent + Nonces(TxsOf(turn.inbox)));
    RoundMovesOn(d, took, s, chain, turn, c);
    PackedApart(c.submitted, leader, ChainNonces(chain), sent + Nonces(TxsOf(turn.inbox)), c.checked);
    NoncesSorted(c.submitted.nodes[leader].pendingTxs);
    NextChainNonces(chain, c.block);
  }

  lemma LeaderIsThere(d: Deployment, v: nat, turn: Turn, s: Sys, c: Course)
    requires d.Valid() && IsRound(d, v, turn, s, c)
    ensures Leader(d, v) in d.honest && c.submitted.nodes.Keys == d.honest && Leader(d, v) in c.submitted.nodes
  {
    hide Perform, Deployment.Valid, Leader, Everybody, CompleteBallots, OnceEach;
    CallerIsHonest(d, Leader(d, v), Protocol.Propose(v));
  }

  ghost predicate ApartAt(d: Deployment, init: Sys, turns: seq<Turn>, courses: seq<Course>, k: nat)
    requires k <= |courses| == |turns|
  {
    Apart(SysAt(init, courses, k).nodes, ChainNonces(BlocksOf(courses[..k])), Nonces(Sent(turns[..k])))
  }

  lemma {:induction false} StaysApart(d: Deployment, init: Sys, turns: seq<Turn>, courses: seq<Course>, k: nat)
    requires d.Valid() && EnoughHonest(d) && IsLockstep(d, init, turns, courses) && k <= |courses|
    requires FreshTxs({}, Sent(turns))
    ensures Reachable(d, SysAt(init, courses, k)) && InStepAt(d, init, turns, courses, k)
    ensures ApartAt(d, init, turns, courses, k)
    ensures AllUnspent(d, courses, k)
  {
    hide Reachable, Deployment.Valid, EnoughHonest, Leader, IsLockstep, InStep, Unspent, BlocksOf, FreshTxs, Nonces,
         ChainNonces, Apart, Sent, IsRound, Leads, AfterPacking, Carries, TookAt;
    Lengths(d, init, turns, courses);
    if k == 0 {
      BeginsInStep(d, init, turns, courses);
      NoBlocks(courses);
      BeginsApart(d, init, turns, courses);
    } else {
      StaysApart(d, init, turns, courses, k - 1);
      RoundLed(d, init, turns, courses, k - 1);
      BlocksSplit(courses, k - 1);
      SentFresh(turns, k - 1);
      RoundKeepsApart(d, TookAt(d, turns, k - 1), SysAt(init, courses, k - 1), BlocksOf(courses[..k - 1]), turns[k - 1],
                      courses[k - 1], Nonces(Sent(turns[..k - 1])));
      ViewMovesOn(d, init, turns, courses, k - 1);
    }
  }

  lemma BeginsApart(d: Deployment, init: Sys, turns: seq<Turn>, courses: seq<Course>)
    requires IsLockstep(d, init, turns, courses)
    ensures ApartAt(d, init, turns, courses, 0)
  {
    hide RoundAt, Nonces;
    NoBlocks(courses);
    assert turns[..0] == [];
    EmptyPools(d, init, Nonces(Sent(turns[..0])));
  }

  lemma EmptyPools(d: Deployment, s: Sys, sent: set<string>)
    requires Init(d, s)
    ensures Apart(s.nodes, ChainNonces([]), sent)
  {
  }

  /** With pairwise distinct nonces, to whichever nodes and in whichever views the transactions are
    sent, no leader ever packs a committed nonce: in every view everybody votes, the votes make a
    certificate, and the run makes progress. */
  lemma DistinctNoncesProgress(d: Deployment, init: Sys, turns: seq<Turn>, courses: seq<Course>, k: nat)
    requires d.Valid() && EnoughHonest(d) && IsLockstep(d, init, turns, courses) && k <= |courses|
    requires FreshTxs({}, Sent(turns))
    ensures Reachable(d, SysAt(init, courses, k)) && InStepAt(d, init, turns, courses, k)
    ensures AllCommitted(d, TookAt(d, turns, k), SysAt(init, courses, k), BlocksOf(courses[..k]))
    ensures AllCarry(d, courses, k)
    ensures forall j | 0 <= j < k :: AllVotedFor(d, courses[j].voted.log, courses[j].block.blockHash)
  {
    hide Reachable, Deployment.Valid, EnoughHonest, IsLockstep, InStepAt, AllCommitted, Unspent, FreshTxs,
         AllCarry, ApartAt, SysAt, TookAt, AllVotedFor;
    Lengths(d, init, turns, courses);
    StaysApart(d, init, turns, courses, k);
    Progress(d, init, turns, courses, k);
    forall j | 0 <= j < k ensures AllVotedFor(d, courses[j].voted.log, courses[j].block.blockHash) {
      StaysApart(d, init, turns, courses, j);
      AllVoteInView(d, init, turns, courses, j);
    }
  }

  /** All honest nodes have committed the same. */
  predicate AllShare(d: Deployment, s: Sys, committed: seq<Proposal>) {
    s.nodes.Keys == d.honest && forall h | h in s.nodes :: s.nodes[h].committed == committed
  }

  /** Failure-free lockstep: with distinct nonces and everybody collecting in every view, all honest nodes commit
    exactly the blocks of all views but the last two, the same everywhere and linked from genesis. */
  lemma EverybodyCommits(d: Deployment, init: Sys, turns: seq<Turn>, courses: seq<Course>, k: nat)
    requires d.Valid() && EnoughHonest(d) && IsLockstep(d, init, turns, courses) && k <= |courses|
    requires FreshTxs({}, Sent(turns)) && forall j | 0 <= j < k :: Collectors(turns[j].ballots) == d.honest
    ensures Linked(BlocksOf(courses[..k]))
    ensures AllShare(d, SysAt(init, courses, k), BlocksOf(courses[..k])[..Settled(k)])
  {
    hide Reachable, Deployment.Valid, EnoughHonest, IsLockstep, InStepAt, AllUnspent, FreshTxs, AllCarry, ApartAt,
         SysAt, TookAt, AllVotedFor, Collectors, Linked;
    Lengths(d, init, turns, courses);
    StaysApart(d, init, turns, courses, k);
    Progress(d, init, turns, courses, k);
    forall h | h in d.honest
      ensures SysAt(init, courses, k).nodes[h].committed == BlocksOf(courses[..k])[..Settled(k)]
    {
      AlwaysCollecting(d, init, turns, courses, k, h);
    }
  }

  lemma AllVoteInView(d: Deployment, init: Sys, turns: seq<Turn>, courses: seq<Course>, k: nat)
    requires d.Valid() && IsLockstep(d, init, turns, courses) && k < |courses|
    requires Reachable(d, SysAt(init, courses, k)) && InStepAt(d, init, turns, courses, k)
    requires Unspent(courses[k].submitted, Leader(d, k))
    ensures AllVotedFor(d, courses[k].voted.log, courses[k].block.blockHash)
  {
    hide Reachable, Deployment.Valid, Leader, IsRound, InStep, Init, BlocksOf, Leads, TookAt, RoundAt, UnspentAt;
    RoundLed(d, init, turns, courses, k);
    SubmittedKeys(d, TookAt(d, turns, k), SysAt(init, courses, k), BlocksOf(courses[..k]), turns[k], courses[k]);
    forall h | h in d.honest ensures Vote(h, courses[k].block.blockHash) in courses[k].voted.log {
      RoundVotesIff(d, TookAt(d, turns, k), SysAt(init, courses, k), BlocksOf(courses[..k]), turns[k], courses[k], h);
    }
  }

  // ------------------------------------------------------------------ what the blocks carry

  predicate AllTo(inbox: Inbox, leader: NodeId) {
    forall k | 0 <= k < |inbox| :: inbox[k].0 == leader
  }

  predicate EmptyPool(s: State) {
    s.pendingTxs == [] && s.pendingNonces == {}
  }

  predicate NoPools(s: Sys) {
    forall h | h in s.nodes :: EmptyPool(s.nodes[h])
  }

  /** A node that is sent fresh transactions takes them all. */
  lemma {:induction false} AllAccepted(d: Deployment, s: Sys, leader: NodeId, inbox: Inbox)
    requires d.Valid() && s.nodes.Keys == d.honest && leader in d.honest
    requires OnHonest(d, Submissions(inbox)) && AllTo(inbox, leader) && EmptyPool(s.nodes[leader])
    requires FreshTxs(s.nodes[leader].seenNonces, TxsOf(inbox))
    ensures Perform(d, s, Submissions(inbox)).nodes ==
            s.nodes[leader := s.nodes[leader].(pendingTxs := TxsOf(inbox), pendingNonces := Nonces(TxsOf(inbox)))]
  {
    hide Called, Deployment.Valid, FreshTxs, Nonces;
    var st := s.nodes[leader];
    if inbox == [] {
      NoNonces(TxsOf(inbox));
      assert st.(pendingTxs := TxsOf(inbox), pendingNonces := Nonces(TxsOf(inbox))) == st;
    } else {
      var init, last := inbox[..|inbox| - 1], inbox[|inbox| - 1];
      var calls := Submissions(inbox);
      assert calls[..|calls| - 1] == Submissions(init) && calls[|calls| - 1] == (last.0, Submit(last.1));
      assert TxsOf(inbox) == TxsOf(init) + [last.1];
      FreshSplit(st.seenNonces, TxsOf(init), last.1);
      NoncesSplit(TxsOf(init), last.1);
      AllAccepted(d, s, leader, init);
      ParamsValid(d, leader);
      SubmitCalled(d, Perform(d, s, Submissions(init)), leader, last.1);
    }
  }

  lemma PackedEmpty(s: Sys, leader: NodeId, s': Sys)
    requires AfterPacking(s, leader, s')
    requires forall h | h in s.nodes && h != leader :: EmptyPool(s.nodes[h])
    ensures NoPools(s')
  {
    forall h | h in s'.nodes ensures EmptyPool(s'.nodes[h]) {
      assert SamePool(s'.nodes[h], Packed(s, leader).nodes[h]);
    }
  }

  lemma InboxIsPacked(d: Deployment, took: Took, s: Sys, chain: seq<Proposal>, turn: Turn, c: Course, sent: set<string>)
    requires d.Valid() && EnoughHonest(d) && Reachable(d, s) && InStep(d, took, s, chain)
    requires IsRound(d, |chain|, turn, s, c)
    requires Leads(took, Leader(d, |chain|), |chain|)
    requires Apart(s.nodes, ChainNonces(chain), sent) && FreshTxs(sent, TxsOf(turn.inbox))
    requires AllTo(turn.inbox, Leader(d, |chain|)) && NoPools(s)
    ensures NoPools(c.checked) && c.block.txs == SortTxs(TxsOf(turn.inbox))
  {
    hide Reachable, Perform, Deployment.Valid, EnoughHonest, Leader, NodeInStep, Packed, SortTxs, Linked, Everybody,
         CompleteBallots, OnHonest, OnceEach, Unspent, FreshTxs, Nonces, ChainNonces, SamePools, Submissions, Each,
         Collections, AllTo, EmptyPool, PoolOf, Leads, Taken, Collectors;
    var leader := Leader(d, |chain|);
    RoundKeepsApart(d, took, s, chain, turn, c, sent);
    RoundMovesOn(d, took, s, chain, turn, c);
    LeaderIsThere(d, |chain|, turn, s, c);
    InboxIsTaken(d, took, s, chain, leader, turn.inbox, sent);
    PackedEmpty(c.submitted, leader, c.checked);
  }

  /** A leader with an empty mempool takes exactly what is sent. */
  lemma InboxIsTaken(d: Deployment, took: Took, s: Sys, chain: seq<Proposal>, leader: NodeId, inbox: Inbox,
                     sent: set<string>)
    requires d.Valid() && InStep(d, took, s, chain) && leader in d.honest && OnHonest(d, Submissions(inbox))
    requires Apart(s.nodes, ChainNonces(chain), sent) && FreshTxs(sent, TxsOf(inbox)) && AllTo(inbox, leader)
    requires NoPools(s)
    ensures var s' := Perform(d, s, Submissions(inbox));
            && s'.nodes.Keys == s.nodes.Keys && s'.nodes[leader].pendingTxs == TxsOf(inbox)
            && forall h | h in s.nodes && h != leader :: EmptyPool(s'.nodes[h])
  {
    hide Perform, Deployment.Valid, NodeInStep, Linked, OnHonest, FreshTxs, Nonces, ChainNonces, Submissions, AllTo,
         EmptyPool, PoolOf, TookBy;
    assert NodeInStep(d, s.nodes[leader], chain, TookBy(took, leader)) && EmptyPool(s.nodes[leader]);
    SeenIsTaken(d, s.nodes[leader], chain, TookBy(took, leader));
    FreshOnLess(s.nodes[leader].seenNonces, sent, TxsOf(inbox));
    AllAccepted(d, s, leader, inbox);
  }

  lemma FreshOnLess(used: set<string>, more: set<string>, txs: seq<Tx>)
    requires used <= more && FreshTxs(more, txs)
    ensures FreshTxs(used, txs)
  {
  }

  lemma BeginsEmpty(d: Deployment, init: Sys, turns: seq<Turn>, courses: seq<Course>)
    requires IsLockstep(d, init, turns, courses)
    ensures NoPools(init)
  {
    hide RoundAt;
  }

  /** When in every view the transactions go to its leader, block k carries exactly those of view k. */
  lemma {:induction false} BlocksCarryInboxes(d: Deployment, init: Sys, turns: seq<Turn>, courses: seq<Course>, k: nat)
    requires d.Valid() && EnoughHonest(d) && IsLockstep(d, init, turns, courses) && k <= |courses|
    requires FreshTxs({}, Sent(turns))
    requires forall j | 0 <= j < |turns| :: AllTo(turns[j].inbox, Leader(d, j))
    ensures NoPools(SysAt(init, courses, k))
    ensures forall j | 0 <= j < k :: courses[j].block.txs == SortTxs(TxsOf(turns[j].inbox))
  {
    hide Reachable, Deployment.Valid, EnoughHonest, Leader, IsRound, InStep, AllUnspent, BlocksOf, FreshTxs, Nonces,
         ChainNonces, Apart, Sent, AllTo, SortTxs, Leads, TookAt, IsLockstep;
    Lengths(d, init, turns, courses);
    BeginsEmpty(d, init, turns, courses);
    if k > 0 {
      BlocksCarryInboxes(d, init, turns, courses, k - 1);
      StaysApart(d, init, turns, courses, k - 1);
      RoundLed(d, init, turns, courses, k - 1);
      SentFresh(turns, k - 1);
      InboxIsPacked(d, TookAt(d, turns, k - 1), SysAt(init, courses, k - 1), BlocksOf(courses[..k - 1]), turns[k - 1],
                    courses[k - 1], Nonces(Sent(turns[..k - 1])));
    }
  }
}
