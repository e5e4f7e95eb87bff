/** What a membership change leaves behind (phase6/vap-to-membership.mjs), told without the functions that
  apply it. */
module MembershipQuorums {
  import opened Wrappers
  import opened Endorse
  import opened Membership
  import opened MembershipReplay
  import Quorum

  // ------------------------------------------------------------------ the numbers

  /** More than twice the faults, and two thirds of the roster. */
  predicate Enough(votes: int, faults: int, size: nat) {
    votes >= 2 * faults + 1 && 3 * votes >= 2 * size
  }

  /** The numbers of a roster: f is the largest budget that three times fits below its size, and the
    threshold is the least number of votes that is enough. */
  ghost predicate Proper(m: Members) {
    && m.n == |m.roster| && 3 * m.f <= |m.roster| - 1 < 3 * m.f + 3
    && Enough(m.threshold, m.f, |m.roster|)
    && forall votes | Enough(votes, m.f, |m.roster|) :: m.threshold <= votes
  }

  lemma RecomputedIsProper(m: Members)
    ensures Proper(Recomputed(m))
  {
  }

  /** A change a node cannot refuse: anything but a rotation of its own key to one it cannot parse. */
  predicate MustTake(me: NodeId, op: Op) {
    !(op.Rotate? && op.nodeId == me && op.newPubKey.Unusable?)
  }

  /** Some block but the last carries a change that the node cannot refuse. */
  predicate ChangeInForce(me: NodeId, blocks: seq<Block>) {
    exists i, j ::
      0 <= i < |blocks| - 1 && 0 <= j < |blocks[i]| && blocks[i][j].Membership? && MustTake(me, blocks[i][j].op)
  }

  predicate AnyChangeInForce(blocks: seq<Block>) {
    exists i, j :: 0 <= i < |blocks| - 1 && 0 <= j < |blocks[i]| && blocks[i][j].Membership?
  }

  lemma {:induction false} OpsOfBlock(txs: seq<Tx>, height: nat, j: nat)
    requires j < |txs| && txs[j].Membership?
    ensures exists k :: 0 <= k < |ChangesIn(txs, height)| && ChangesIn(txs, height)[k].op == txs[j].op
  {
    var last := |txs| - 1;
    if j < last {
      OpsOfBlock(txs[..last], height, j);
      var k :| 0 <= k < |ChangesIn(txs[..last], height)| && ChangesIn(txs[..last], height)[k].op == txs[j].op;
      assert ChangesIn(txs, height)[k].op == txs[j].op;
    } else {
      assert ChangesIn(txs, height)[|ChangesIn(txs[..last], height)|].op == txs[j].op;
    }
  }

  lemma {:induction false} OpsOfBlocks(blocks: seq<Block>, i: nat, j: nat)
    requires i < |blocks| && j < |blocks[i]| && blocks[i][j].Membership?
    ensures exists k :: 0 <= k < |Changes(blocks)| && Changes(blocks)[k].op == blocks[i][j].op
  {
    hide ChangesIn;
    var last := |blocks| - 1;
    var op, earlier := blocks[i][j].op, Changes(blocks[..last]);
    assert Changes(blocks) == earlier + ChangesIn(blocks[last], last);
    if i < last {
      OpsOfBlocks(blocks[..last], i, j);
      var k :| 0 <= k < |earlier| && earlier[k].op == op;
      assert Changes(blocks)[k].op == op;
    } else {
      OpsOfBlock(blocks[last], last, j);
      var k :| 0 <= k < |ChangesIn(blocks[last], last)| && ChangesIn(blocks[last], last)[k].op == op;
      assert Changes(blocks)[|earlier| + k].op == op;
    }
  }

  /** A change in all blocks but the last is among the operations in force. */
  lemma InForceOf(blocks: seq<Block>, i: nat, j: nat)
    requires i < |blocks| - 1 && j < |blocks[i]| && blocks[i][j].Membership?
    ensures exists k :: 0 <= k < |InForce(blocks)| && InForce(blocks)[k] == blocks[i][j].op
  {
    hide Changes;
    assert Settled(blocks)[i] == blocks[i];
    OpsOfBlocks(Settled(blocks), i, j);
    var k :| 0 <= k < |Changes(Settled(blocks))| && Changes(Settled(blocks))[k].op == blocks[i][j].op;
    assert InForce(blocks)[k] == blocks[i][j].op;
  }

  lemma NumbersAreProper(m: Members)
    requires SameNumbers(m, Recomputed(m))
    ensures Proper(m)
  {
    RecomputedIsProper(m);
  }

  /** At every height the membership is the one the node started with or its numbers are those of its
    roster; they are as soon as a change the node cannot refuse has come into force. */
  lemma LiveNumbersProper(me: NodeId, m: Members, blocks: seq<Block>)
    requires Consistent(m)
    ensures var s := Live(me, m, blocks).members;
      Consistent(s) && (s == m || Proper(s)) && (ChangeInForce(me, blocks) ==> Proper(s))
  {
    hide Live, FoldLive, Outcomes, Proper, Recomputed, Consistent, SameNumbers, SomeTaken, InForce, Changes;
    RosterStaysConsistent(me, m, blocks);
    LiveShape(me, m, blocks);
    InForceIs(blocks);
    var ops := InForce(blocks);
    LiveNumbers(me, m, ops);
    if SomeTaken(me, m, ops) {
      NumbersAreProper(FoldLive(me, m, ops).0);
    }
    if ChangeInForce(me, blocks) {
      var i, j :| 0 <= i < |blocks| - 1 && 0 <= j < |blocks[i]| && blocks[i][j].Membership? && MustTake(me, blocks[i][j].op);
      InForceOf(blocks, i, j);
      var k :| 0 <= k < |ops| && ops[k] == blocks[i][j].op;
      MustTakeIsTaken(me, m, ops, k);
    }
  }

  lemma MustTakeIsTaken(me: NodeId, m: Members, ops: seq<Op>, k: nat)
    requires k < |ops| && MustTake(me, ops[k])
    ensures SomeTaken(me, m, ops)
  {
    hide FoldLive;
    assert !Refuses(me, FoldLive(me, m, ops[..k]).0, ops[k]);
  }

  /** The same for a node that replays the blocks, which refuses nothing. */
  lemma ReplayedNumbersProper(m: Members, blocks: seq<Block>)
    requires Consistent(m)
    ensures var s := Replayed(m, blocks).members;
      Consistent(s) && (s == m || Proper(s)) && (AnyChangeInForce(blocks) ==> Proper(s))
  {
    hide Replayed, FoldReplayed, Outcomes, Proper, Recomputed, Consistent, SameNumbers, InForce, Changes;
    ReplayedShape(m, blocks);
    InForceIs(blocks);
    var ops := InForce(blocks);
    ReplayedConsistent(m, ops);
    if ops == [] {
      NothingToDo(0, m);
    } else {
      ReplayedNumbers(m, ops);
      NumbersAreProper(FoldReplayed(m, ops).0);
    }
    if AnyChangeInForce(blocks) {
      var i, j :| 0 <= i < |blocks| - 1 && 0 <= j < |blocks[i]| && blocks[i][j].Membership?;
      InForceOf(blocks, i, j);
    }
  }

  lemma {:induction false} ReplayedConsistent(m: Members, ops: seq<Op>)
    requires Consistent(m)
    ensures Consistent(FoldReplayed(m, ops).0)
  {
    hide Changed;
    if ops != [] {
      ReplayedConsistent(m, ops[..|ops| - 1]);
      ChangedKeepsConsistent(FoldReplayed(m, ops[..|ops| - 1]).0, ops[|ops| - 1]);
    }
  }

  // ------------------------------------------------------------------ quorums meet

  function RosterIds(m: Members): set<NodeId> {
    set i | 0 <= i < |m.roster| :: m.roster[i].nodeId
  }

  /** A consistent roster lists as many ids as entries, those of the key table. */
  lemma {:induction false} IdsCounted(roster: seq<Member>)
    requires StrictlySorted(roster)
    ensures |set i | 0 <= i < |roster| :: roster[i].nodeId| == |roster|
  {
    if roster != [] {
      var init, last := roster[..|roster| - 1], roster[|roster| - 1];
      IdsCounted(init);
      assert (set i | 0 <= i < |roster| :: roster[i].nodeId) == (set i | 0 <= i < |init| :: init[i].nodeId) + {last.nodeId};
    }
  }

  lemma IdsAreKeys(m: Members)
    requires Consistent(m)
    ensures RosterIds(m) == m.peerMap.Keys && |RosterIds(m)| == |m.roster|
  {
    IdsCounted(m.roster);
    forall id | id in m.peerMap ensures id in RosterIds(m) {
      assert Member(id, m.peerMap[id]) in Table(m.peerMap);
      var i :| 0 <= i < |m.roster| && m.roster[i] == Member(id, m.peerMap[id]);
    }
    forall id | id in RosterIds(m) ensures id in m.peerMap {
      var i :| 0 <= i < |m.roster| && m.roster[i].nodeId == id;
      assert m.roster[i] in Listed(m.roster);
    }
  }

  /** Two quorums of one membership share more members than can be faulty. */
  lemma QuorumsShare(m: Members, q1: set<NodeId>, q2: set<NodeId>)
    requires Consistent(m) && Proper(m)
    requires q1 <= RosterIds(m) && |q1| >= m.threshold && q2 <= RosterIds(m) && |q2| >= m.threshold
    ensures |q1 * q2| >= m.f + 1
  {
    IdsAreKeys(m);
    Quorum.OverlapBound(RosterIds(m), q1, q2);
  }

  /** So at every height, live or replayed, once a change has come into force. */
  lemma QuorumsShareAtEveryHeight(me: NodeId, m: Members, blocks: seq<Block>, live: bool, q1: set<NodeId>,
                                  q2: set<NodeId>)
    requires Consistent(m) && if live then ChangeInForce(me, blocks) else AnyChangeInForce(blocks)
    requires var s := if live then Live(me, m, blocks).members else Replayed(m, blocks).members;
      q1 <= RosterIds(s) && |q1| >= s.threshold && q2 <= RosterIds(s) && |q2| >= s.threshold
    ensures var s := if live then Live(me, m, blocks).members else Replayed(m, blocks).members;
      |q1 * q2| >= s.f + 1 && 3 * s.f <= |s.peerMap| - 1 < 3 * s.f + 3
  {
    hide Live, Replayed, Consistent, RosterIds;
    if live {
      LiveNumbersProper(me, m, blocks);
      QuorumsShare(Live(me, m, blocks).members, q1, q2);
      IdsAreKeys(Live(me, m, blocks).members);
    } else {
      ReplayedNumbersProper(m, blocks);
      QuorumsShare(Replayed(m, blocks).members, q1, q2);
      IdsAreKeys(Replayed(m, blocks).members);
    }
  }

  lemma ProperIsRoster(m: Members)
    requires Proper(m)
    ensures m.f == Quorum.FaultBudget(|m.roster|) && m.threshold == Quorum.RosterThreshold(|m.roster|)
  {
    assert Enough(Quorum.RosterThreshold(|m.roster|), m.f, |m.roster|);
  }

  /** One more member: a quorum before and a quorum after share f + 1 members of the smaller roster. */
  lemma QuorumsShareAcrossJoin(small: Members, large: Members, extra: NodeId, q: set<NodeId>, q': set<NodeId>)
    requires Consistent(small) && Consistent(large) && Proper(small) && Proper(large)
    requires extra !in small.peerMap && large.peerMap.Keys == small.peerMap.Keys + {extra}
    requires q <= RosterIds(small) && |q| >= small.threshold && q' <= RosterIds(large) && |q'| >= large.threshold
    ensures |q * q'| >= small.f + 1
  {
    hide Consistent, Proper, RosterIds;
    IdsAreKeys(small);
    IdsAreKeys(large);
    ProperIsRoster(small);
    ProperIsRoster(large);
    assert |small.peerMap.Keys + {extra}| == |small.peerMap.Keys| + 1;
    Quorum.OverlapAcrossOneChange(RosterIds(small), extra, q, q');
    Quorum.SubsetCardinality(q * (q' * RosterIds(small)), q * q');
  }

  /** One change, with the thresholds the node itself computes before and after it: a quorum of the old
    membership and a quorum of the new one share at least f + 1 members, f being the smaller budget. */
  lemma QuorumsShareAcrossReplayedChange(m: Members, op: Op, q: set<NodeId>, q': set<NodeId>)
    requires Consistent(m) && Proper(m)
    requires q <= RosterIds(m) && |q| >= m.threshold
    requires var m' := ApplyReplayed(m, op).0; q' <= RosterIds(m') && |q'| >= m'.threshold
    ensures var m' := ApplyReplayed(m, op).0;
      && Consistent(m') && Proper(m')
      && |q * q'| >= (if m.f <= m'.f then m.f else m'.f) + 1
  {
    hide Consistent, Proper, RosterIds, Recomputed, Changed;
    var m' := ApplyReplayed(m, op).0;
    ChangedKeepsConsistent(m, op);
    RecomputedKeepsTables(Changed(m, op));
    RecomputedIsProper(Changed(m, op));
    var before, after := m.peerMap.Keys, m'.peerMap.Keys;
    IdsAreKeys(m);
    IdsAreKeys(m');
    ProperIsRoster(m);
    ProperIsRoster(m');
    KeysAcrossChange(m.peerMap, Changed(m, op).peerMap, op);
    if before == after {
      SameKeysShare(m, m', q, q');
    } else if op.Join? {
      QuorumsShareAcrossJoin(m, m', op.nodeId, q, q');
      BudgetGrows(|m.roster|);
    } else {
      assert after + {op.nodeId} == before;
      QuorumsShareAcrossJoin(m', m, op.nodeId, q', q);
      assert q * q' == q' * q;
      BudgetGrows(|m'.roster|);
    }
  }

  /** The same where a node applies the change live and may refuse it. */
  lemma QuorumsShareAcrossChange(me: NodeId, m: Members, op: Op, q: set<NodeId>, q': set<NodeId>)
    requires Consistent(m) && Proper(m)
    requires q <= RosterIds(m) && |q| >= m.threshold
    requires var m' := ApplyLive(me, m, op).0; q' <= RosterIds(m') && |q'| >= m'.threshold
    ensures var m' := ApplyLive(me, m, op).0;
      && Consistent(m') && Proper(m')
      && |q * q'| >= (if m.f <= m'.f then m.f else m'.f) + 1
  {
    hide Consistent, Proper, RosterIds, Recomputed, Changed;
    if Refuses(me, m, op) {
      QuorumsShare(m, q, q');
    } else {
      QuorumsShareAcrossReplayedChange(m, op, q, q');
    }
  }

  lemma RecomputedKeepsTables(m: Members)
    ensures Recomputed(m).roster == m.roster && Recomputed(m).peerMap == m.peerMap
    ensures Consistent(m) ==> Consistent(Recomputed(m))
  {
  }

  lemma BudgetGrows(n: nat)
    ensures Quorum.FaultBudget(n) <= Quorum.FaultBudget(n + 1)
  {
  }

  lemma KeysAcrossChange(before: map<NodeId, PublicKey>, after: map<NodeId, PublicKey>, op: Op)
    requires match op
      case Join(id, key) => after == if id in before then before else before[id := key]
      case Rotate(id, key) => after == if id in before then before[id := key] else before
      case Report => after == before
      case _ => after == before - {op.nodeId}
    ensures after.Keys == before.Keys
      || (op.Join? && op.nodeId !in before && after.Keys == before.Keys + {op.nodeId})
      || ((op.Slash? || op.Expel?) && op.nodeId in before && op.nodeId !in after && before.Keys == after.Keys + {op.nodeId})
  {
  }

  lemma SameKeysShare(m: Members, m': Members, q: set<NodeId>, q': set<NodeId>)
    requires Consistent(m) && Consistent(m') && Proper(m) && m.peerMap.Keys == m'.peerMap.Keys
    requires m'.threshold == m.threshold
    requires q <= RosterIds(m) && |q| >= m.threshold && q' <= RosterIds(m') && |q'| >= m'.threshold
    ensures |q * q'| >= m.f + 1
  {
    hide Consistent, Proper, RosterIds;
    IdsAreKeys(m);
    IdsAreKeys(m');
    QuorumsShare(m, q, q');
  }

  // ------------------------------------------------------------------ who is expelled, what is logged

  predicate Removes(tx: Tx, id: NodeId) {
    tx.Membership? && (tx.op == Op.Slash(id) || tx.op == Op.Expel(id))
  }

  predicate SomeTxRemoves(blocks: seq<Block>, id: NodeId) {
    exists i, j :: 0 <= i < |blocks| && 0 <= j < |blocks[i]| && Removes(blocks[i][j], id)
  }

  predicate SomeTxUses(blocks: seq<Block>, key: string) {
    exists i, j ::
      && 0 <= i < |blocks| && 0 <= j < |blocks[i]| && blocks[i][j].Membership?
      && key == blocks[i][j].from.text + ":" + blocks[i][j].nonce.text
  }

  lemma {:induction false} ExpelledFromBlocks(blocks: seq<Block>, id: NodeId)
    ensures id in ExpelledBy(blocks) <==> SomeTxRemoves(blocks, id)
  {
    if blocks != [] {
      var init, last := blocks[..|blocks| - 1], |blocks| - 1;
      ExpelledFromBlocks(init, id);
      if SomeTxRemoves(init, id) {
        var i, j :| 0 <= i < |init| && 0 <= j < |init[i]| && Removes(init[i][j], id);
        assert Removes(blocks[i][j], id);
      }
      if id in ExpelledIn(blocks[last]) {
        var j :| 0 <= j < |blocks[last]| && blocks[last][j].Membership? && Removal(blocks[last][j].op) &&
          blocks[last][j].op.nodeId == id;
        assert Removes(blocks[last][j], id);
      }
      if SomeTxRemoves(blocks, id) {
        var i, j :| 0 <= i < |blocks| && 0 <= j < |blocks[i]| && Removes(blocks[i][j], id);
        if i < last {
          assert Removes(init[i][j], id);
        } else {
          assert blocks[last][j].op.nodeId in ExpelledIn(blocks[last]);
        }
      }
    }
  }

  /** A membership transaction whose nonce a replay records. */
  predicate TypedWith(tx: Tx, key: string) {
    tx.Membership? && tx.from.Text? && tx.nonce.Text? && key == tx.from.text + ":" + tx.nonce.text
  }

  predicate SomeTypedTxUses(blocks: seq<Block>, key: string) {
    exists i, j :: 0 <= i < |blocks| && 0 <= j < |blocks[i]| && TypedWith(blocks[i][j], key)
  }

  lemma {:induction false} CollectedNonces(s: State, txs: seq<Tx>, height: nat, key: string)
    ensures key in CollectedAll(s, txs, height).membershipNonces <==>
            key in s.membershipNonces || exists j :: 0 <= j < |txs| && TypedWith(txs[j], key)
  {
    if txs != [] {
      var init, last := txs[..|txs| - 1], |txs| - 1;
      CollectedNonces(s, init, height, key);
      if j :| 0 <= j < |init| && TypedWith(init[j], key) {
        assert TypedWith(txs[j], key);
      }
    }
  }

  lemma {:induction false} CollectedBlocksNonces(s: State, blocks: seq<Block>, key: string)
    ensures key in CollectedBlocks(s, blocks).membershipNonces <==> key in s.membershipNonces || SomeTypedTxUses(blocks, key)
  {
    hide TypedWith, CollectedAll;
    if blocks != [] {
      var init, last := blocks[..|blocks| - 1], |blocks| - 1;
      CollectedBlocksNonces(s, init, key);
      CollectedNonces(CollectedBlocks(s, init), blocks[last], last, key);
      if SomeTypedTxUses(init, key) {
        var i, j :| 0 <= i < |init| && 0 <= j < |init[i]| && TypedWith(init[i][j], key);
        assert TypedWith(blocks[i][j], key);
      }
      if j :| 0 <= j < |blocks[last]| && TypedWith(blocks[last][j], key) {
        assert TypedWith(blocks[last][j], key);
      }
      if SomeTypedTxUses(blocks, key) {
        var i, j :| 0 <= i < |blocks| && 0 <= j < |blocks[i]| && TypedWith(blocks[i][j], key);
        assert i < last ==> TypedWith(init[i][j], key);
      }
    }
  }

  lemma {:induction false} NoncesFromBlocks(blocks: seq<Block>, key: string)
    ensures key in NoncesOf(blocks) <==> SomeTxUses(blocks, key)
  {
    if blocks != [] {
      var init, last := blocks[..|blocks| - 1], |blocks| - 1;
      NoncesFromBlocks(init, key);
      if SomeTxUses(init, key) {
        var i, j :| 0 <= i < |init| && 0 <= j < |init[i]| && init[i][j].Membership? &&
          key == init[i][j].from.text + ":" + init[i][j].nonce.text;
        assert blocks[i][j] == init[i][j];
      }
      if SomeTxUses(blocks, key) {
        var i, j :| 0 <= i < |blocks| && 0 <= j < |blocks[i]| && blocks[i][j].Membership? &&
          key == blocks[i][j].from.text + ":" + blocks[i][j].nonce.text;
        assert i < last ==> blocks[i][j] == init[i][j];
        assert i == last ==> NonceKey(blocks[last][j]) in NoncesIn(blocks[last]);
      }
    }
  }

  /** Whoever a slash or expulsion in some committed block names is expelled, even before the change takes
    effect, and nobody else, on a live node and after a replay; the nonces of the live node are those of
    all membership transactions, those of a replay those of the well-typed ones. */
  lemma ExpelledAtOnce(me: NodeId, m: Members, blocks: seq<Block>, id: NodeId, key: string)
    ensures id in Live(me, m, blocks).expelled <==> SomeTxRemoves(blocks, id)
    ensures id in Replayed(m, blocks).expelled <==> SomeTxRemoves(blocks, id)
    ensures key in Live(me, m, blocks).membershipNonces <==> SomeTxUses(blocks, key)
    ensures key in Replayed(m, blocks).membershipNonces <==> SomeTypedTxUses(blocks, key)
  {
    CollectedBlocksNonces(Initial(m).(height := |blocks|), blocks, key);
    ReplayNonces(m, blocks);
    hide Live, Replayed, FoldLive, FoldReplayed, Outcomes, Changes, SomeTxRemoves, SomeTxUses, SomeTypedTxUses;
    LiveShape(me, m, blocks);
    ReplayedShape(m, blocks);
    ExpelledFromBlocks(blocks, id);
    NoncesFromBlocks(blocks, key);
  }

  /** The entry records the change as refused, or as applied with the numbers of the roster it led to. */
  ghost predicate Reports(e: LogEntry, op: Op, before: Members, after: Members) {
    || (e == Rejected(op) && after == before)
    || (e == Applied(op, |after.roster|, after.f, after.threshold) && Proper(after))
  }

  lemma {:induction false} LiveOutcomesReport(me: NodeId, m: Members, ops: seq<Op>, k: nat)
    requires k < |ops|
    ensures |FoldLive(me, m, ops).1| == |ops|
    ensures Reports(FoldLive(me, m, ops).1[k], ops[k], FoldLive(me, m, ops[..k]).0, FoldLive(me, m, ops[..k + 1]).0)
  {
    hide ApplyLive, FoldLive, Reports;
    var n := |ops| - 1;
    var m1 := FoldLive(me, m, ops[..n]).0;
    FoldLiveStep(me, m, ops);
    LiveEntries(me, m, ops);
    LiveEntries(me, m, ops[..n]);
    OneOutcome(me, m1, ops[n]);
    if k < n {
      LiveOutcomesReport(me, m, ops[..n], k);
      assert ops[..n][..k] == ops[..k] && ops[..n][..k + 1] == ops[..k + 1];
    } else {
      assert ops[..n + 1] == ops;
    }
  }

  lemma OneOutcome(me: NodeId, m: Members, op: Op)
    ensures Reports(ApplyLive(me, m, op).1, op, m, ApplyLive(me, m, op).0)
    ensures Reports(ApplyReplayed(m, op).1, op, m, ApplyReplayed(m, op).0)
  {
    hide Changed, Proper;
    RecomputedIsProper(Changed(m, op));
  }

  lemma {:induction false} ReplayedOutcomesReport(m: Members, ops: seq<Op>, k: nat)
    requires k < |ops|
    ensures |FoldReplayed(m, ops).1| == |ops|
    ensures Reports(FoldReplayed(m, ops).1[k], ops[k], FoldReplayed(m, ops[..k]).0, FoldReplayed(m, ops[..k + 1]).0)
  {
    hide ApplyReplayed, FoldReplayed, Reports;
    var n := |ops| - 1;
    var m1 := FoldReplayed(m, ops[..n]).0;
    ReplayedStep(m, ops);
    ReplayEntries(m, ops);
    ReplayEntries(m, ops[..n]);
    OneOutcome(0, m1, ops[n]);
    if k < n {
      ReplayedOutcomesReport(m, ops[..n], k);
      assert ops[..n][..k] == ops[..k] && ops[..n][..k + 1] == ops[..k + 1];
    } else {
      assert ops[..n + 1] == ops;
    }
  }

  lemma ReplayedStep(m: Members, ops: seq<Op>)
    requires ops != []
    ensures var (m1, entries) := FoldReplayed(m, ops[..|ops| - 1]);
      var (m2, entry) := ApplyReplayed(m1, ops[|ops| - 1]);
      FoldReplayed(m, ops) == (m2, entries + [entry])
  {
    hide ApplyReplayed;
  }

  /** The outcomes on record, one for each change in force and in their order, give the size, budget and
    threshold of the roster the change led to, or say that it was refused and changed nothing. */
  lemma OutcomesReported(me: NodeId, m: Members, blocks: seq<Block>, k: nat)
    requires k < |InForce(blocks)|
    ensures var ops, live, replayed := InForce(blocks), Outcomes(Live(me, m, blocks).log), Outcomes(Replayed(m, blocks).log);
      && |live| == |replayed| == |ops|
      && Reports(live[k], ops[k], FoldLive(me, m, ops[..k]).0, FoldLive(me, m, ops[..k + 1]).0)
      && Reports(replayed[k], ops[k], FoldReplayed(m, ops[..k]).0, FoldReplayed(m, ops[..k + 1]).0)
  {
    hide Live, Replayed, FoldLive, FoldReplayed, Outcomes, Reports, Changes, InForce;
    InForceIs(blocks);
    LiveShape(me, m, blocks);
    ReplayedShape(m, blocks);
    LiveOutcomesReport(me, m, InForce(blocks), k);
    ReplayedOutcomesReport(m, InForce(blocks), k);
  }

  lemma ReplayNonces(m: Members, blocks: seq<Block>)
    ensures Replayed(m, blocks).membershipNonces == CollectedBlocks(Initial(m).(height := |blocks|), blocks).membershipNonces
  {
    hide CollectedBlocks, ReplayedChanges, NotDue;
  }

  /** Entries that record what a block asks for, not what became of it. */
  predicate Note(e: LogEntry) {
    e.Scheduled? || e.ExpelledNow?
  }

  predicate Explains(tx: Tx, height: nat, live: bool, e: LogEntry) {
    tx.Membership? &&
      if e.Scheduled? then live && e == Scheduled(tx.op, height)
      else e == ExpelledNow(tx.op, height) && (tx.op.Slash? || tx.op.Expel?)
  }

  predicate ExplainedIn(txs: seq<Tx>, height: nat, live: bool, e: LogEntry) {
    exists j :: 0 <= j < |txs| && Explains(txs[j], height, live, e)
  }

  predicate Explained(blocks: seq<Block>, live: bool, e: LogEntry) {
    exists i :: 0 <= i < |blocks| && ExplainedIn(blocks[i], i, live, e)
  }

  lemma {:induction false} NotedEntries(s: State, txs: seq<Tx>, height: nat, e: LogEntry)
    requires Note(e)
    ensures e in NotedAll(s, txs, height).log <==> e in s.log || ExplainedIn(txs, height, true, e)
    ensures e in CollectedAll(s, txs, height).log <==> e in s.log || ExplainedIn(txs, height, false, e)
  {
    if txs != [] {
      var init, last := txs[..|txs| - 1], |txs| - 1;
      NotedEntries(s, init, height, e);
      forall live: bool ensures ExplainedIn(txs, height, live, e) <==>
        ExplainedIn(init, height, live, e) || Explains(txs[last], height, live, e) {
        if ExplainedIn(init, height, live, e) {
          var j :| 0 <= j < |init| && Explains(init[j], height, live, e);
          assert Explains(txs[j], height, live, e);
        }
      }
    }
  }

  lemma {:induction false} DueAddsNoNote(me: NodeId, s: State, k: nat, e: LogEntry)
    requires k <= |s.pendingChanges| && Note(e)
    ensures e in Due(me, s, k).log <==> e in s.log
  {
    hide Recomputed, Changed;
    if k > 0 {
      DueAddsNoNote(me, s, k - 1, e);
    }
  }

  lemma {:induction false} ReplayAddsNoNote(m: Members, log: seq<LogEntry>, cs: seq<Change>, height: nat, e: LogEntry)
    requires Note(e)
    ensures e in ReplayedChanges(m, log, cs, height).1 <==> e in log
  {
    hide Recomputed, Changed;
    if cs != [] {
      ReplayAddsNoNote(m, log, cs[..|cs| - 1], height, e);
    }
  }

  lemma ExplainedSplit(init: seq<Block>, block: Block, live: bool, e: LogEntry)
    ensures Explained(init + [block], live, e) <==> Explained(init, live, e) || ExplainedIn(block, |init|, live, e)
  {
    hide ExplainedIn;
    var blocks := init + [block];
    assert blocks[|init|] == block && forall i | 0 <= i < |init| :: blocks[i] == init[i];
    if Explained(init, live, e) {
      var i :| 0 <= i < |init| && ExplainedIn(init[i], i, live, e);
      assert ExplainedIn(blocks[i], i, live, e);
    }
    if ExplainedIn(block, |init|, live, e) {
      assert ExplainedIn(blocks[|init|], |init|, live, e);
    }
  }

  lemma {:induction false} CollectedEntries(s: State, blocks: seq<Block>, e: LogEntry)
    requires Note(e)
    ensures e in CollectedBlocks(s, blocks).log <==> e in s.log || Explained(blocks, false, e)
  {
    hide ExplainedIn;
    if blocks != [] {
      var init, last := blocks[..|blocks| - 1], |blocks| - 1;
      assert blocks == init + [blocks[last]];
      CollectedEntries(s, init, e);
      NotedEntries(CollectedBlocks(s, init), blocks[last], last, e);
      ExplainedSplit(init, blocks[last], false, e);
    }
  }

  /** The log of a live node schedules exactly the changes on the chain, at their heights, and records
    exactly the removals as expulsions at once; a replay records the removals only. */
  lemma {:induction false} LogExplained(me: NodeId, m: Members, blocks: seq<Block>, e: LogEntry)
    requires Note(e)
    ensures e in Live(me, m, blocks).log <==> Explained(blocks, true, e)
    ensures e in Replayed(m, blocks).log <==> Explained(blocks, false, e)
  {
    hide ExplainedIn, NotedAll, Due, CollectedBlocks, ReplayedChanges;
    if blocks != [] {
      var init, last := blocks[..|blocks| - 1], |blocks| - 1;
      assert blocks == init + [blocks[last]];
      LogExplained(me, m, init, e);
      var s := Live(me, m, init);
      var noted := NotedAll(s.(height := s.height + 1), blocks[last], s.height);
      NotedEntries(s.(height := s.height + 1), blocks[last], last, e);
      DueAddsNoNote(me, noted, |noted.pendingChanges|, e);
      ExplainedSplit(init, blocks[last], true, e);
    }
    var t := CollectedBlocks(Initial(m).(height := |blocks|), blocks);
    CollectedEntries(Initial(m).(height := |blocks|), blocks, e);
    ReplayAddsNoNote(t.members, t.log, ByHeight(t.pendingChanges), t.height, e);
  }
}
