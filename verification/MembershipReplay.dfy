/** Replaying the committed chain in one batch gives the membership that committing it block by
  block gave (phase6/vap-to-membership.mjs: applyDueChanges, replayMembership). */
module MembershipReplay {
  import opened Wrappers
  import opened Endorse
  import opened Membership
  import Quorum

  // ------------------------------------------------------------------ what a chain asks for

  function ChangesIn(txs: seq<Tx>, height: nat): seq<Change> {
    if txs == [] then []
    else
      var init, tx := ChangesIn(txs[..|txs| - 1], height), txs[|txs| - 1];
      if tx.Membership? then init + [Change(tx.op, height, height + 2, false)] else init
  }

  function Changes(blocks: seq<Block>): seq<Change> {
    if blocks == [] then [] else Changes(blocks[..|blocks| - 1]) + ChangesIn(blocks[|blocks| - 1], |blocks| - 1)
  }

  function Ops(cs: seq<Change>): (ops: seq<Op>)
    ensures |ops| == |cs|
  {
    seq(|cs|, i requires 0 <= i < |cs| => cs[i].op)
  }

  /** The blocks whose changes have taken effect: all but the last. */
  function Settled(blocks: seq<Block>): seq<Block> {
    if blocks == [] then [] else blocks[..|blocks| - 1]
  }

  function Latest(blocks: seq<Block>): seq<Change> {
    if blocks == [] then [] else ChangesIn(blocks[|blocks| - 1], |blocks| - 1)
  }

  /** Apply operations in order, collecting what is logged about each. */
  function FoldLive(me: NodeId, m: Members, ops: seq<Op>): (Members, seq<LogEntry>) {
    if ops == [] then (m, [])
    else
      var (m1, entries) := FoldLive(me, m, ops[..|ops| - 1]);
      var (m2, entry) := ApplyLive(me, m1, ops[|ops| - 1]);
      (m2, entries + [entry])
  }

  function FoldReplayed(m: Members, ops: seq<Op>): (Members, seq<LogEntry>) {
    if ops == [] then (m, [])
    else
      var (m1, entries) := FoldReplayed(m, ops[..|ops| - 1]);
      var (m2, entry) := ApplyReplayed(m1, ops[|ops| - 1]);
      (m2, entries + [entry])
  }

  lemma {:induction false} FoldLiveConcat(me: NodeId, m: Members, a: seq<Op>, b: seq<Op>)
    ensures var (m1, e1) := FoldLive(me, m, a); var (m2, e2) := FoldLive(me, m1, b);
      FoldLive(me, m, a + b) == (m2, e1 + e2)
  {
    hide ApplyLive;
    if b == [] {
      assert a + b == a && FoldLive(me, m, a).1 + [] == FoldLive(me, m, a).1;
    } else {
      var ops := a + b;
      assert ops[..|ops| - 1] == a + b[..|b| - 1] && ops[|ops| - 1] == b[|b| - 1];
      FoldLiveConcat(me, m, a, b[..|b| - 1]);
      assert FoldLive(me, m, ops).1 == FoldLive(me, m, a).1 + FoldLive(me, FoldLive(me, m, a).0, b).1;
    }
  }

  /** Outcomes of applied changes, in order; the other entries are bookkeeping. */
  function Outcomes(log: seq<LogEntry>): seq<LogEntry> {
    if log == [] then []
    else
      var init, entry := Outcomes(log[..|log| - 1]), log[|log| - 1];
      if entry.Applied? || entry.Rejected? then init + [entry] else init
  }

  lemma OutcomesPush(log: seq<LogEntry>, entry: LogEntry)
    ensures Outcomes(log + [entry]) == Outcomes(log) + if entry.Applied? || entry.Rejected? then [entry] else []
  {
    assert (log + [entry])[..|log|] == log;
  }

  function ExpelledIn(txs: seq<Tx>): set<NodeId> {
    set i | 0 <= i < |txs| && txs[i].Membership? && Removal(txs[i].op) :: txs[i].op.nodeId
  }

  function ExpelledBy(blocks: seq<Block>): set<NodeId> {
    if blocks == [] then {} else ExpelledBy(blocks[..|blocks| - 1]) + ExpelledIn(blocks[|blocks| - 1])
  }

  function NoncesIn(txs: seq<Tx>): set<string> {
    set i | 0 <= i < |txs| && txs[i].Membership? :: NonceKey(txs[i])
  }

  function NoncesOf(blocks: seq<Block>): set<string> {
    if blocks == [] then {} else NoncesOf(blocks[..|blocks| - 1]) + NoncesIn(blocks[|blocks| - 1])
  }

  // ------------------------------------------------------------------ the live node

  lemma {:induction false} NotedShape(s: State, txs: seq<Tx>, height: nat)
    ensures var t := NotedAll(s, txs, height);
      && t.pendingChanges == s.pendingChanges + ChangesIn(txs, height)
      && t.expelled == s.expelled + ExpelledIn(txs)
      && t.membershipNonces == s.membershipNonces + NoncesIn(txs)
      && Outcomes(t.log) == Outcomes(s.log)
  {
    hide Outcomes;
    if txs != [] {
      var init, tx := txs[..|txs| - 1], txs[|txs| - 1];
      NotedShape(s, init, height);
      NotedLog(NotedAll(s, init, height), tx, height);
      InSplit(init, tx);
      assert txs == init + [tx];
    }
  }

  lemma NotedLog(t: State, tx: Tx, height: nat)
    ensures Outcomes(Noted(t, tx, height).log) == Outcomes(t.log)
  {
    if tx.Membership? {
      var scheduled := Scheduled(tx.op, height);
      OutcomesPush(t.log, scheduled);
      OutcomesPush(t.log + [scheduled], ExpelledNow(tx.op, height));
    }
  }

  lemma InSplit(init: seq<Tx>, tx: Tx)
    ensures NoncesIn(init + [tx]) == NoncesIn(init) + if tx.Membership? then {NonceKey(tx)} else {}
    ensures ExpelledIn(init + [tx]) == ExpelledIn(init) + if tx.Membership? && Removal(tx.op) then {tx.op.nodeId} else {}
  {
    var txs := init + [tx];
    assert txs[|init|] == tx && forall i | 0 <= i < |init| :: txs[i] == init[i];
  }

  function Done(cs: seq<Change>): (r: seq<Change>)
    ensures |r| == |cs| && forall i | 0 <= i < |cs| :: r[i] == cs[i].(applied := true)
  {
    seq(|cs|, i requires 0 <= i < |cs| => cs[i].(applied := true))
  }

  /** Changes already applied, or not yet due, are passed over. */
  lemma {:induction false} DuePassesOver(me: NodeId, s: State, i: nat, k: nat)
    requires i <= k <= |s.pendingChanges|
    requires forall j | i <= j < k :: s.pendingChanges[j].applied || s.height < s.pendingChanges[j].activateHeight
    ensures Due(me, s, k) == Due(me, s, i)
    decreases k
  {
    if i < k {
      DuePassesOver(me, s, i, k - 1);
    }
  }

  lemma OpsOfSlice(cs: seq<Change>, i: nat, k: nat)
    requires i < k <= |cs|
    ensures var ops := Ops(cs[i..k]); ops[..|ops| - 1] == Ops(cs[i..k - 1]) && ops[|ops| - 1] == cs[k - 1].op
  {
    var ops, init := Ops(cs[i..k]), Ops(cs[i..k - 1]);
    forall j | 0 <= j < |init| ensures ops[j] == init[j] {
    }
  }

  lemma DueStep(me: NodeId, s: State, k: nat)
    requires 0 < k <= |s.pendingChanges|
    requires !s.pendingChanges[k - 1].applied && s.pendingChanges[k - 1].activateHeight <= s.height
    ensures var before, after := Due(me, s, k - 1), Due(me, s, k);
      var (m, entry) := ApplyLive(me, before.members, s.pendingChanges[k - 1].op);
      after.members == m && after.log == before.log + [entry]
  {
    hide ApplyLive;
  }

  lemma FoldLiveStep(me: NodeId, m: Members, ops: seq<Op>)
    requires ops != []
    ensures var (m1, entries) := FoldLive(me, m, ops[..|ops| - 1]);
      var (m2, entry) := ApplyLive(me, m1, ops[|ops| - 1]);
      FoldLive(me, m, ops) == (m2, entries + [entry])
  {
    hide ApplyLive;
  }

  /** Changes that are due are applied in order. */
  lemma {:induction false} DueApplies(me: NodeId, s: State, i: nat, k: nat)
    requires i <= k <= |s.pendingChanges|
    requires forall j | i <= j < k :: !s.pendingChanges[j].applied && s.pendingChanges[j].activateHeight <= s.height
    ensures var before, after := Due(me, s, i), Due(me, s, k);
      var (m, entries) := FoldLive(me, before.members, Ops(s.pendingChanges[i..k]));
      after.members == m && after.log == before.log + entries
    decreases k
  {
    if i == k {
      var before := Due(me, s, i);
      assert Ops(s.pendingChanges[i..k]) == [] && before.log + [] == before.log;
    } else {
      hide ApplyLive, FoldLive, Due, Ops;
      DueApplies(me, s, i, k - 1);
      var m, ops := Due(me, s, i).members, Ops(s.pendingChanges[i..k]);
      OpsOfSlice(s.pendingChanges, i, k);
      DueStep(me, s, k);
      FoldLiveStep(me, m, ops);
      AppendAssociates(Due(me, s, i).log, FoldLive(me, m, ops[..|ops| - 1]).1,
                       ApplyLive(me, Due(me, s, k - 1).members, s.pendingChanges[k - 1].op).1);
    }
  }

  lemma AppendAssociates<T>(a: seq<T>, b: seq<T>, x: T)
    ensures (a + b) + [x] == a + (b + [x])
  {
  }

  /** Exactly the due changes are marked. */
  lemma {:induction false} DueMarks(me: NodeId, s: State, k: nat)
    requires k <= |s.pendingChanges|
    ensures forall j | 0 <= j < k ::
      Due(me, s, k).pendingChanges[j] ==
        if s.pendingChanges[j].activateHeight <= s.height then s.pendingChanges[j].(applied := true) else s.pendingChanges[j]
  {
    hide ApplyLive;
    if k > 0 {
      DueMarks(me, s, k - 1);
    }
  }

  lemma DoneConcat(a: seq<Change>, b: seq<Change>)
    ensures Done(a + b) == Done(a) + Done(b)
  {
  }

  lemma {:induction false} ChangesInHeights(txs: seq<Tx>, height: nat)
    ensures forall i | 0 <= i < |ChangesIn(txs, height)| ::
      var c := ChangesIn(txs, height)[i]; c.submitHeight == height && c.activateHeight == height + 2 && !c.applied
  {
    if txs != [] {
      ChangesInHeights(txs[..|txs| - 1], height);
    }
  }

  lemma OpsConcat(a: seq<Change>, b: seq<Change>)
    ensures Ops(a + b) == Ops(a) + Ops(b)
  {
  }

  /** A live node in terms of its chain: the changes of all blocks but the last have been applied in
    order, those of the last block are waiting; expulsions and nonces count at once. */
  lemma {:induction false} LiveShape(me: NodeId, m: Members, blocks: seq<Block>)
    ensures var s := Live(me, m, blocks);
      var (members, entries) := FoldLive(me, m, Ops(Changes(Settled(blocks))));
      && s.members == members && Outcomes(s.log) == entries
      && s.pendingChanges == Done(Changes(Settled(blocks))) + Latest(blocks)
      && s.expelled == ExpelledBy(blocks) && s.membershipNonces == NoncesOf(blocks)
  {
    if blocks == [] {
      NothingCommitted(me, m);
    } else {
      hide Live, FoldLive, Outcomes, CommittedBlock, Changes, Done, Ops, ChangesIn;
      var init, block := blocks[..|blocks| - 1], blocks[|blocks| - 1];
      LiveShape(me, m, init);
      LiveStep(me, m, init, block);
      LiveUnfolds(me, m, blocks);
    }
  }

  lemma NothingCommitted(me: NodeId, m: Members)
    ensures Live(me, m, []) == Initial(m) && Ops(Changes([])) == [] && FoldLive(me, m, []) == (m, []) && Outcomes([]) == []
    ensures Done(Changes([])) == []
  {
  }

  lemma LiveUnfolds(me: NodeId, m: Members, blocks: seq<Block>)
    requires blocks != []
    ensures var init, block := blocks[..|blocks| - 1], blocks[|blocks| - 1];
      && Live(me, m, blocks) == CommittedBlock(me, Live(me, m, init), block)
      && Settled(blocks) == init && Latest(blocks) == ChangesIn(block, |init|)
      && ExpelledBy(blocks) == ExpelledBy(init) + ExpelledIn(block)
      && NoncesOf(blocks) == NoncesOf(init) + NoncesIn(block)
  {
    hide CommittedBlock;
  }

  lemma {:induction false} OutcomesOfFold(me: NodeId, m: Members, ops: seq<Op>, log: seq<LogEntry>)
    ensures Outcomes(log + FoldLive(me, m, ops).1) == Outcomes(log) + FoldLive(me, m, ops).1
  {
    var entries := FoldLive(me, m, ops).1;
    if ops == [] {
      assert log + entries == log;
    } else {
      var init := FoldLive(me, m, ops[..|ops| - 1]).1;
      OutcomesOfFold(me, m, ops[..|ops| - 1], log);
      assert log + entries == (log + init) + [entries[|entries| - 1]];
      OutcomesPush(log + init, entries[|entries| - 1]);
    }
  }

  /** When a block has been noted, the changes of the one before it are due and its own are not. */
  lemma NotedIsBatched(noted: State, init: seq<Block>, block: Block)
    requires noted.pendingChanges == Done(Changes(Settled(init))) + Latest(init) + ChangesIn(block, |init|)
    requires noted.height == |init| + 1
    ensures Batched(noted, Done(Changes(Settled(init))), Latest(init), ChangesIn(block, |init|))
  {
    hide Changes, ChangesIn;
    ChangesInHeights(block, |init|);
    if init != [] {
      ChangesInHeights(init[|init| - 1], |init| - 1);
    }
    ChangesAscend(init);
  }

  lemma DueKeeps(me: NodeId, s: State)
    ensures var t := AppliedDue(me, s);
      t.height == s.height && t.expelled == s.expelled && t.membershipNonces == s.membershipNonces
  {
  }

  lemma LiveStep(me: NodeId, m: Members, init: seq<Block>, block: Block)
    requires var s := Live(me, m, init);
      && s.members == FoldLive(me, m, Ops(Changes(Settled(init)))).0 && Outcomes(s.log) == FoldLive(me, m, Ops(Changes(Settled(init)))).1
      && s.pendingChanges == Done(Changes(Settled(init))) + Latest(init)
      && s.expelled == ExpelledBy(init) && s.membershipNonces == NoncesOf(init)
    ensures var t := CommittedBlock(me, Live(me, m, init), block);
      && t.members == FoldLive(me, m, Ops(Changes(init))).0 && Outcomes(t.log) == FoldLive(me, m, Ops(Changes(init))).1
      && t.pendingChanges == Done(Changes(init)) + ChangesIn(block, |init|)
      && t.expelled == ExpelledBy(init) + ExpelledIn(block) && t.membershipNonces == NoncesOf(init) + NoncesIn(block)
  {
    hide Live, ApplyLive, Due, FoldLive, Outcomes, NotedAll, AppliedDue, Batched, Changes, Latest, ChangesIn, Ops, Done;
    var s, H := Live(me, m, init), |init|;
    var noted := NotedAll(s.(height := H + 1), block, H);
    NotedShape(s.(height := H + 1), block, H);
    var settled, waiting, added := Changes(Settled(init)), Latest(init), ChangesIn(block, H);
    ChangesAscend(init);
    NotedIsBatched(noted, init, block);
    DueKeeps(me, noted);
    DueBatch(me, noted, Done(settled), waiting, added);
    DueBatchMarks(me, noted, Done(settled), waiting, added);
    assert Changes(init) == settled + waiting;
    OpsConcat(settled, waiting);
    DoneConcat(settled, waiting);
    FoldLiveConcat(me, m, Ops(settled), Ops(waiting));
    OutcomesOfFold(me, s.members, Ops(waiting), noted.log);
  }

  /** The schedule of a node about to apply changes: applied ones, due ones, later ones. */
  predicate Batched(s: State, applied: seq<Change>, waiting: seq<Change>, added: seq<Change>) {
    && s.pendingChanges == applied + waiting + added
    && (forall j | 0 <= j < |applied| :: applied[j].applied && applied[j].activateHeight <= s.height)
    && (forall j | 0 <= j < |waiting| :: !waiting[j].applied && waiting[j].activateHeight <= s.height)
    && (forall j | 0 <= j < |added| :: !added[j].applied && s.height < added[j].activateHeight)
  }

  lemma BatchedAt(s: State, applied: seq<Change>, waiting: seq<Change>, added: seq<Change>)
    requires Batched(s, applied, waiting, added)
    ensures var a, b, n := |applied|, |applied| + |waiting|, |s.pendingChanges|;
      && s.pendingChanges[a..b] == waiting
      && (forall j | 0 <= j < a :: s.pendingChanges[j] == applied[j])
      && (forall j | a <= j < b :: s.pendingChanges[j] == waiting[j - a])
      && (forall j | b <= j < n :: s.pendingChanges[j] == added[j - b])
  {
  }

  lemma DueBatch(me: NodeId, s: State, applied: seq<Change>, waiting: seq<Change>, added: seq<Change>)
    requires Batched(s, applied, waiting, added)
    ensures var t := AppliedDue(me, s);
      var (m, entries) := FoldLive(me, s.members, Ops(waiting));
      t.members == m && t.log == s.log + entries
  {
    assert Due(me, s, 0) == s;
    hide ApplyLive, FoldLive, Due;
    var a, b := |applied|, |applied| + |waiting|;
    BatchedAt(s, applied, waiting, added);
    DuePassesOver(me, s, 0, a);
    DueApplies(me, s, a, b);
    DuePassesOver(me, s, b, |s.pendingChanges|);
  }

  lemma DueBatchMarks(me: NodeId, s: State, applied: seq<Change>, waiting: seq<Change>, added: seq<Change>)
    requires Batched(s, applied, waiting, added)
    ensures AppliedDue(me, s).pendingChanges == applied + Done(waiting) + added
  {
    hide Due;
    BatchedAt(s, applied, waiting, added);
    DueMarks(me, s, |s.pendingChanges|);
  }

  // ------------------------------------------------------------------ the replaying node

  predicate WellTyped(blocks: seq<Block>) {
    forall i, j | 0 <= i < |blocks| && 0 <= j < |blocks[i]| && blocks[i][j].Membership? ::
      blocks[i][j].from.Text? && blocks[i][j].nonce.Text?
  }

  predicate TxsTyped(txs: seq<Tx>) {
    forall j | 0 <= j < |txs| && txs[j].Membership? :: txs[j].from.Text? && txs[j].nonce.Text?
  }

  lemma {:induction false} CollectedShape(s: State, txs: seq<Tx>, height: nat)
    ensures var t := CollectedAll(s, txs, height);
      && t.members == s.members && t.height == s.height
      && t.pendingChanges == s.pendingChanges + ChangesIn(txs, height)
      && t.expelled == s.expelled + ExpelledIn(txs)
      && t.membershipNonces <= s.membershipNonces + NoncesIn(txs)
      && (TxsTyped(txs) ==> t.membershipNonces == s.membershipNonces + NoncesIn(txs))
      && Outcomes(t.log) == Outcomes(s.log)
  {
    hide Outcomes;
    if txs != [] {
      var init, tx := txs[..|txs| - 1], txs[|txs| - 1];
      CollectedShape(s, init, height);
      var t := CollectedAll(s, init, height);
      if tx.Membership? {
        OutcomesPush(t.log, ExpelledNow(tx.op, height));
      }
      InSplit(init, tx);
      assert txs == init + [tx];
      assert TxsTyped(txs) ==> TxsTyped(init);
    }
  }

  lemma {:induction false} CollectedBlocksShape(s: State, blocks: seq<Block>)
    requires s.pendingChanges == [] && s.expelled == {} && s.membershipNonces == {} && s.log == []
    ensures var t := CollectedBlocks(s, blocks);
      && t.members == s.members && t.height == s.height
      && t.pendingChanges == Changes(blocks) && t.expelled == ExpelledBy(blocks)
      && t.membershipNonces <= NoncesOf(blocks)
      && (WellTyped(blocks) ==> t.membershipNonces == NoncesOf(blocks))
      && Outcomes(t.log) == []
  {
    hide Outcomes, CollectedAll;
    if blocks == [] {
      NoOutcomes();
    } else {
      var init, block := blocks[..|blocks| - 1], blocks[|blocks| - 1];
      CollectedBlocksShape(s, init);
      CollectedShape(CollectedBlocks(s, init), block, |blocks| - 1);
      TypedSplit(blocks);
    }
  }

  lemma NoOutcomes()
    ensures Outcomes([]) == []
  {
  }

  lemma TypedSplit(blocks: seq<Block>)
    requires blocks != []
    ensures WellTyped(blocks) ==> WellTyped(blocks[..|blocks| - 1]) && TxsTyped(blocks[|blocks| - 1])
  {
  }

  predicate Ascending(cs: seq<Change>) {
    forall i, j | 0 <= i < j < |cs| :: cs[i].activateHeight <= cs[j].activateHeight
  }

  /** Changes are scheduled in the order they come due, so sorting them moves nothing. */
  lemma {:induction false} SortMovesNothing(cs: seq<Change>)
    requires Ascending(cs)
    ensures ByHeight(cs) == cs
  {
    hide InsertByHeight;
    if cs != [] {
      var init, last := cs[..|cs| - 1], cs[|cs| - 1];
      SortMovesNothing(init);
      InsertLastChange(init, last);
      assert init + [last] == cs;
    }
  }

  lemma InsertLastChange(cs: seq<Change>, c: Change)
    requires cs == [] || cs[|cs| - 1].activateHeight <= c.activateHeight
    ensures InsertByHeight(cs, c) == cs + [c]
  {
  }

  lemma {:induction false} ChangesAscend(blocks: seq<Block>)
    ensures Ascending(Changes(blocks))
    ensures forall i | 0 <= i < |Changes(blocks)| :: Changes(blocks)[i].activateHeight <= |blocks| + 1
    ensures forall i | 0 <= i < |Changes(Settled(blocks))| :: Changes(Settled(blocks))[i].activateHeight <= |blocks|
    ensures forall i | 0 <= i < |Latest(blocks)| :: Latest(blocks)[i].activateHeight == |blocks| + 1
    ensures Changes(blocks) == Changes(Settled(blocks)) + Latest(blocks)
  {
    if blocks != [] {
      ChangesAscend(blocks[..|blocks| - 1]);
      ChangesInHeights(blocks[|blocks| - 1], |blocks| - 1);
    }
  }

  lemma {:induction false} ReplayedAll(m: Members, log: seq<LogEntry>, due: seq<Change>, height: nat)
    requires forall i | 0 <= i < |due| :: due[i].activateHeight <= height
    ensures var (members, entries) := FoldReplayed(m, Ops(due)); ReplayedChanges(m, log, due, height) == (members, log + entries)
    ensures NotDue(due, height) == []
  {
    hide ApplyReplayed;
    if due == [] {
      assert log + [] == log;
    } else {
      ReplayedAll(m, log, due[..|due| - 1], height);
      var ops := Ops(due);
      assert ops[..|ops| - 1] == Ops(due[..|due| - 1]);
      var entries := FoldReplayed(m, ops).1;
      assert log + entries == (log + FoldReplayed(m, ops[..|ops| - 1]).1) + [entries[|entries| - 1]];
    }
  }

  lemma {:induction false} ReplayedPrefix(m: Members, log: seq<LogEntry>, due: seq<Change>, rest: seq<Change>, height: nat)
    requires forall i | 0 <= i < |due| :: due[i].activateHeight <= height
    requires forall i | 0 <= i < |rest| :: rest[i].activateHeight > height
    ensures var (members, entries) := FoldReplayed(m, Ops(due));
      ReplayedChanges(m, log, due + rest, height) == (members, log + entries)
    ensures NotDue(due + rest, height) == rest
    decreases |rest|
  {
    hide ApplyReplayed, FoldReplayed;
    var cs := due + rest;
    if rest == [] {
      assert cs == due;
      ReplayedAll(m, log, due, height);
    } else {
      assert cs[..|cs| - 1] == due + rest[..|rest| - 1];
      ReplayedPrefix(m, log, due, rest[..|rest| - 1], height);
    }
  }

  /** A replaying node in terms of its chain. */
  lemma ReplayedShape(m: Members, blocks: seq<Block>)
    ensures var s := Replayed(m, blocks);
      var (members, entries) := FoldReplayed(m, Ops(Changes(Settled(blocks))));
      && s.members == members && Outcomes(s.log) == entries && s.pendingChanges == Latest(blocks)
      && s.expelled == ExpelledBy(blocks) && s.membershipNonces <= NoncesOf(blocks)
      && (WellTyped(blocks) ==> s.membershipNonces == NoncesOf(blocks))
  {
    hide Outcomes, CollectedBlocks, ReplayedChanges, ByHeight, NotDue, FoldReplayed, WellTyped;
    var s0 := Initial(m).(height := |blocks|);
    CollectedBlocksShape(s0, blocks);
    ChangesAscend(blocks);
    SortMovesNothing(Changes(blocks));
    var s := CollectedBlocks(s0, blocks);
    ReplayedPrefix(m, s.log, Changes(Settled(blocks)), Latest(blocks), |blocks|);
    OutcomesOfReplay(m, Ops(Changes(Settled(blocks))), s.log);
  }

  lemma {:induction false} OutcomesOfReplay(m: Members, ops: seq<Op>, log: seq<LogEntry>)
    ensures Outcomes(log + FoldReplayed(m, ops).1) == Outcomes(log) + FoldReplayed(m, ops).1
  {
    var entries := FoldReplayed(m, ops).1;
    if ops == [] {
      assert log + entries == log;
    } else {
      var init := FoldReplayed(m, ops[..|ops| - 1]).1;
      OutcomesOfReplay(m, ops[..|ops| - 1], log);
      assert log + entries == (log + init) + [entries[|entries| - 1]];
      OutcomesPush(log + init, entries[|entries| - 1]);
    }
  }

  // ------------------------------------------------------------------ the two agree

  /** No change that takes effect is refused by the live node. */
  predicate NoneRefused(me: NodeId, m: Members, ops: seq<Op>) {
    forall k | 0 <= k < |ops| :: !Refuses(me, FoldLive(me, m, ops[..k]).0, ops[k])
  }

  /** A rejection is logged exactly where a change is refused. */
  lemma {:induction false} LiveEntries(me: NodeId, m: Members, ops: seq<Op>)
    ensures |FoldLive(me, m, ops).1| == |ops|
    ensures forall k | 0 <= k < |ops| :: FoldLive(me, m, ops).1[k].Rejected? <==> Refuses(me, FoldLive(me, m, ops[..k]).0, ops[k])
  {
    if ops != [] {
      hide Refuses, ApplyLive, FoldLive;
      var n := |ops| - 1;
      LiveEntries(me, m, ops[..n]);
      FoldLiveStep(me, m, ops);
      RejectedIffRefused(me, FoldLive(me, m, ops[..n]).0, ops[n]);
      forall k | 0 <= k < |ops| ensures FoldLive(me, m, ops).1[k].Rejected? <==> Refuses(me, FoldLive(me, m, ops[..k]).0, ops[k]) {
        assert k < n ==> ops[..n][..k] == ops[..k] && ops[..n][k] == ops[k];
      }
    }
  }

  lemma RejectedIffRefused(me: NodeId, m: Members, op: Op)
    ensures ApplyLive(me, m, op).1.Rejected? <==> Refuses(me, m, op)
  {
  }

  lemma {:induction false} ReplayEntries(m: Members, ops: seq<Op>)
    ensures |FoldReplayed(m, ops).1| == |ops| && forall k | 0 <= k < |ops| :: FoldReplayed(m, ops).1[k].Applied?
  {
    hide Changed, Recomputed;
    if ops != [] {
      ReplayEntries(m, ops[..|ops| - 1]);
    }
  }

  lemma {:induction false} UnrefusedFoldsAgree(me: NodeId, m: Members, ops: seq<Op>)
    requires NoneRefused(me, m, ops)
    ensures FoldLive(me, m, ops) == FoldReplayed(m, ops)
  {
    hide Refuses, Changed, Recomputed;
    if ops != [] {
      var init := ops[..|ops| - 1];
      assert forall k | 0 <= k < |init| :: ops[..k] == init[..k];
      UnrefusedFoldsAgree(me, m, init);
      assert !Refuses(me, FoldLive(me, m, ops[..|ops| - 1]).0, ops[|ops| - 1]);
    }
  }

  lemma OutcomesAgreeIff(me: NodeId, m: Members, ops: seq<Op>)
    ensures FoldLive(me, m, ops).1 == FoldReplayed(m, ops).1 <==> NoneRefused(me, m, ops)
  {
    hide Refuses;
    LiveEntries(me, m, ops);
    ReplayEntries(m, ops);
    if NoneRefused(me, m, ops) {
      UnrefusedFoldsAgree(me, m, ops);
    }
  }

  // ------------------------------------------------------------------ where the two differ

  predicate Has(roster: seq<Member>, id: NodeId) {
    exists i :: 0 <= i < |roster| && roster[i].nodeId == id
  }

  lemma HasSplit(init: seq<Member>, last: Member, id: NodeId)
    ensures Has(init + [last], id) <==> Has(init, id) || last.nodeId == id
  {
    var roster := init + [last];
    assert roster[|init|] == last && forall i | 0 <= i < |init| :: roster[i] == init[i];
  }

  lemma {:induction false} RekeyedPush(init: seq<Member>, last: Member, id: NodeId, key: PublicKey)
    ensures Rekeyed(init + [last], id, key) ==
            if Has(init, id) then Rekeyed(init, id, key) + [last]
            else if last.nodeId == id then init + [Member(id, key)] else init + [last]
  {
    var roster := init + [last];
    if init == [] {
      assert roster == [last] && roster[1..] == [];
    } else {
      assert roster[1..] == init[1..] + [last] && init == [init[0]] + init[1..];
      RekeyedPush(init[1..], last, id, key);
      HasFirst(init, id);
    }
  }

  lemma HasFirst(roster: seq<Member>, id: NodeId)
    requires roster != []
    ensures Has(roster, id) <==> roster[0].nodeId == id || Has(roster[1..], id)
  {
    if Has(roster, id) && roster[0].nodeId != id {
      var i :| 0 <= i < |roster| && roster[i].nodeId == id;
      assert roster[1..][i - 1] == roster[i];
    }
    if Has(roster[1..], id) {
      var i :| 0 <= i < |roster[1..]| && roster[1..][i].nodeId == id;
      assert roster[i + 1].nodeId == id;
    }
  }

  /** Rekeying changes no id and no entry of another id, so it changes no length. */
  lemma {:induction false} RekeyedOnly(roster: seq<Member>, id: NodeId, key: PublicKey)
    ensures |Rekeyed(roster, id, key)| == |roster|
    ensures forall i | 0 <= i < |roster| :: Rekeyed(roster, id, key)[i].nodeId == roster[i].nodeId
    ensures forall i | 0 <= i < |roster| && roster[i].nodeId != id :: Rekeyed(roster, id, key)[i] == roster[i]
    ensures !Has(roster, id) ==> Rekeyed(roster, id, key) == roster
  {
    if roster != [] {
      HasFirst(roster, id);
      if roster[0].nodeId != id {
        RekeyedOnly(roster[1..], id, key);
      }
    }
  }

  lemma {:induction false} RekeyedTwice(roster: seq<Member>, id: NodeId, key: PublicKey, other: NodeId, key': PublicKey)
    ensures id == other ==> Rekeyed(Rekeyed(roster, id, key), other, key') == Rekeyed(roster, other, key')
    ensures id != other ==> Rekeyed(Rekeyed(roster, id, key), other, key') == Rekeyed(Rekeyed(roster, other, key'), id, key)
  {
    if roster != [] {
      RekeyedTwice(roster[1..], id, key, other, key');
    }
  }

  lemma {:induction false} RekeyedThenWithout(roster: seq<Member>, id: NodeId, key: PublicKey, other: NodeId)
    ensures Has(Without(roster, other), id) <==> Has(roster, id) && id != other
    ensures id == other ==> Without(Rekeyed(roster, id, key), other) == Without(roster, other)
    ensures id != other ==> Without(Rekeyed(roster, id, key), other) == Rekeyed(Without(roster, other), id, key)
  {
    hide Has;
    if roster == [] {
      HasNone(id);
    } else {
      var init, last := roster[..|roster| - 1], roster[|roster| - 1];
      assert roster == init + [last];
      RekeyedThenWithout(init, id, key, other);
      RekeyedPush(init, last, id, key);
      RekeyedPush(Without(init, other), last, id, key);
      HasSplit(init, last, id);
      HasSplit(Without(init, other), last, id);
      WithoutPush(init, last, other);
      WithoutPush(init, Member(id, key), other);
      WithoutPush(Rekeyed(init, id, key), last, other);
      RekeyedOnly(Without(init, other), id, key);
    }
  }

  lemma HasNone(id: NodeId)
    ensures !Has([], id)
  {
  }

  lemma WithoutPush(init: seq<Member>, last: Member, id: NodeId)
    ensures Without(init + [last], id) == Without(init, id) + if last.nodeId == id then [] else [last]
  {
    assert (init + [last])[..|init|] == init;
    assert Without(init, id) + [] == Without(init, id);
  }

  lemma {:induction false} HasInserted(roster: seq<Member>, x: Member, id: NodeId)
    ensures Has(Insert(roster, x), id) <==> Has(roster, id) || x.nodeId == id
  {
    hide Has;
    if roster == [] || roster[|roster| - 1].nodeId <= x.nodeId {
      HasSplit(roster, x, id);
    } else {
      var init, last := roster[..|roster| - 1], roster[|roster| - 1];
      assert roster == init + [last];
      HasInserted(init, x, id);
      HasSplit(init, last, id);
      HasSplit(Insert(init, x), last, id);
    }
  }

  lemma {:induction false} HasSorted(roster: seq<Member>, id: NodeId)
    ensures Has(Sorted(roster), id) <==> Has(roster, id)
  {
    hide Has, Insert;
    if roster != [] {
      var init, last := roster[..|roster| - 1], roster[|roster| - 1];
      assert roster == init + [last];
      HasSorted(init, id);
      HasInserted(Sorted(init), last, id);
      HasSplit(init, last, id);
    }
  }

  lemma InsertPush(init: seq<Member>, last: Member, x: Member)
    ensures Insert(init + [last], x) == if last.nodeId <= x.nodeId then init + [last] + [x] else Insert(init, x) + [last]
  {
    assert (init + [last])[..|init|] == init;
  }

  /** Inserting and rekeying do not interfere, whichever id is inserted. */
  lemma {:induction false} RekeyedThenInsert(roster: seq<Member>, id: NodeId, key: PublicKey, x: Member)
    ensures Has(roster, id) ==> Insert(Rekeyed(roster, id, key), x) == Rekeyed(Insert(roster, x), id, key)
    ensures !Has(roster, id) && x.nodeId == id ==> Insert(roster, Member(id, key)) == Rekeyed(Insert(roster, x), id, key)
    ensures !Has(roster, id) && x.nodeId != id ==> Insert(roster, x) == Rekeyed(Insert(roster, x), id, key)
  {
    hide Has, Rekeyed;
    HasInserted(roster, x, id);
    RekeyedOnly(Insert(roster, x), id, key);
    if roster == [] {
      HasNone(id);
      RekeyedPush([], x, id, key);
      assert [] + [x] == [x] && [] + [Member(id, key)] == [Member(id, key)];
    } else {
      var init, last := roster[..|roster| - 1], roster[|roster| - 1];
      assert roster == init + [last];
      HasSplit(init, last, id);
      InsertPush(init, last, x);
      InsertPush(init, last, Member(id, key));
      InsertPush(init, Member(id, key), x);
      InsertPush(Rekeyed(init, id, key), last, x);
      RekeyedPush(init, last, id, key);
      RekeyedPush(roster, x, id, key);
      RekeyedPush(Insert(init, x), last, id, key);
      HasInserted(init, x, id);
      RekeyedThenInsert(init, id, key, x);
    }
  }

  lemma {:induction false} RekeyedThenSorted(roster: seq<Member>, id: NodeId, key: PublicKey)
    ensures Sorted(Rekeyed(roster, id, key)) == Rekeyed(Sorted(roster), id, key)
  {
    hide Has, Rekeyed, Insert;
    if roster == [] {
      RekeyedOnly([], id, key);
    } else {
      var init, last := roster[..|roster| - 1], roster[|roster| - 1];
      assert roster == init + [last];
      RekeyedThenSorted(init, id, key);
      RekeyedPush(init, last, id, key);
      RekeyedThenInsert(Sorted(init), id, key, last);
      HasSorted(init, id);
      SortedPush(init, last);
      SortedPush(init, Member(id, key));
      SortedPush(Rekeyed(init, id, key), last);
    }
  }

  lemma SortedPush(init: seq<Member>, last: Member)
    ensures Sorted(init + [last]) == Insert(Sorted(init), last)
  {
    assert (init + [last])[..|init|] == init;
  }

  predicate SameTables(a: Members, b: Members) {
    a.roster == b.roster && a.peerMap == b.peerMap
  }

  predicate SameNumbers(a: Members, b: Members) {
    a.n == b.n && a.f == b.f && a.threshold == b.threshold
  }

  /** The tables with another key in place of the one held. */
  function Put(m: Members, id: NodeId, key: PublicKey): Members {
    m.(roster := Rekeyed(m.roster, id, key), peerMap := m.peerMap[id := key])
  }

  function Over(m: Members, id: NodeId, key: Option<PublicKey>): Members {
    if key.None? then m else Put(m, id, key.value)
  }

  /** An operation that settles which key the node itself has. */
  predicate OwnOp(me: NodeId, op: Op) {
    (op.Rotate? || Removal(op)) && op.nodeId == me
  }

  /** The key asked for by the last refused rotation, unless an own operation came after it. */
  function Missed(me: NodeId, m: Members, ops: seq<Op>): Option<PublicKey> {
    if ops == [] then None
    else
      var init, op := ops[..|ops| - 1], ops[|ops| - 1];
      if Refuses(me, FoldLive(me, m, init).0, op) then Some(op.newPubKey)
      else if OwnOp(me, op) then None
      else Missed(me, m, init)
  }

  lemma JoinKeepsOver(m: Members, id: NodeId, key: PublicKey, x: NodeId, k: PublicKey)
    requires id in m.peerMap && x !in m.peerMap
    ensures Sorted(Rekeyed(m.roster, id, key) + [Member(x, k)]) == Rekeyed(Sorted(m.roster + [Member(x, k)]), id, key)
    ensures m.peerMap[id := key][x := k] == m.peerMap[x := k][id := key]
  {
    hide Rekeyed, Sorted, Has;
    RekeyedPush(m.roster, Member(x, k), id, key);
    RekeyedOnly(m.roster, id, key);
    RekeyedThenSorted(m.roster + [Member(x, k)], id, key);
  }

  lemma KeyedThenRemoved(table: map<NodeId, PublicKey>, id: NodeId, key: PublicKey, x: NodeId)
    ensures table[id := key] - {x} == if x == id then table - {x} else (table - {x})[id := key]
  {
  }

  lemma KeyedTwice(table: map<NodeId, PublicKey>, id: NodeId, key: PublicKey, x: NodeId, k: PublicKey)
    ensures table[id := key][x := k] == if x == id then table[x := k] else table[x := k][id := key]
  {
  }

  /** One more change: the tables keep differing in the missed key only. */
  lemma ChangeKeepsOver(m: Members, id: NodeId, key: PublicKey, op: Op)
    requires id in m.peerMap
    ensures SameTables(Changed(Put(m, id, key), op), if OwnOp(id, op) then Changed(m, op) else Put(Changed(m, op), id, key))
    ensures !OwnOp(id, op) ==> id in Changed(m, op).peerMap
  {
    hide Rekeyed, Sorted, Without, Has;
    match op
    case Join(x, k) =>
      if x !in m.peerMap {
        JoinKeepsOver(m, id, key, x, k);
      }
    case Rotate(x, k) =>
      RekeyedTwice(m.roster, id, key, x, k);
      KeyedTwice(m.peerMap, id, key, x, k);
    case Report =>
    case _ =>
      RekeyedThenWithout(m.roster, id, key, op.nodeId);
      KeyedThenRemoved(m.peerMap, id, key, op.nodeId);
  }

  lemma ChangedTables(a: Members, b: Members, op: Op)
    requires SameTables(a, b)
    ensures SameTables(Changed(a, op), Changed(b, op))
  {
    hide Rekeyed, Sorted, Without;
  }

  lemma OneMoreChange(me: NodeId, live: Members, replayed: Members, key: Option<PublicKey>, op: Op)
    requires SameTables(replayed, Over(live, me, key)) && (key.Some? ==> me in live.peerMap)
    ensures var live', replayed' := ApplyLive(me, live, op).0, ApplyReplayed(replayed, op).0;
      var key' := if Refuses(me, live, op) then Some(op.newPubKey) else if OwnOp(me, op) then None else key;
      SameTables(replayed', Over(live', me, key')) && (key'.Some? ==> me in live'.peerMap)
  {
    hide Rekeyed, Sorted, Without;
    ChangedTables(replayed, Over(live, me, key), op);
    if key.Some? {
      ChangeKeepsOver(live, me, key.value, op);
    }
  }

  /** Replayed tables are the live ones, but for the key the live node missed. */
  lemma {:induction false} FoldsDifferInMissedKey(me: NodeId, m: Members, ops: seq<Op>)
    ensures var live, key := FoldLive(me, m, ops).0, Missed(me, m, ops);
      SameTables(FoldReplayed(m, ops).0, Over(live, me, key)) && (key.Some? ==> me in live.peerMap)
  {
    hide Refuses, ApplyLive, ApplyReplayed, Over, SameTables, OwnOp;
    if ops == [] {
      NothingMissed(m, me);
    } else {
      var init, op := ops[..|ops| - 1], ops[|ops| - 1];
      FoldsDifferInMissedKey(me, m, init);
      OneMoreChange(me, FoldLive(me, m, init).0, FoldReplayed(m, init).0, Missed(me, m, init), op);
    }
  }

  lemma NothingMissed(m: Members, id: NodeId)
    ensures SameTables(m, Over(m, id, None))
  {
  }

  /** Operation j is refused and no own operation follows it. */
  predicate LastWord(me: NodeId, m: Members, ops: seq<Op>, j: nat)
    requires j < |ops|
  {
    && Refuses(me, FoldLive(me, m, ops[..j]).0, ops[j])
    && forall l | j < l < |ops| :: !OwnOp(me, ops[l])
  }

  lemma {:induction false} MissedIsLastWord(me: NodeId, m: Members, ops: seq<Op>)
    ensures forall j | 0 <= j < |ops| && LastWord(me, m, ops, j) :: Missed(me, m, ops) == Some(ops[j].newPubKey)
    ensures Missed(me, m, ops).Some? ==> exists j :: 0 <= j < |ops| && LastWord(me, m, ops, j)
  {
    hide FoldLive;
    if ops != [] {
      var n := |ops| - 1;
      var init := ops[..n];
      MissedIsLastWord(me, m, init);
      forall j | 0 <= j < n ensures LastWord(me, m, ops, j) <==> LastWord(me, m, init, j) && !OwnOp(me, ops[n]) {
        assert ops[..j] == init[..j] && forall l | j < l < n :: ops[l] == init[l];
      }
      assert Refuses(me, FoldLive(me, m, init).0, ops[n]) ==> LastWord(me, m, ops, n);
    }
  }

  /** The key is the one the table and the first entry of the roster under this id have. */
  predicate Holds(m: Members, id: NodeId, key: PublicKey) {
    id in m.peerMap && m.peerMap[id] == key && Rekeyed(m.roster, id, key) == m.roster
  }

  /** Every refusal has been overridden by a later own operation, or asked for the key still held. */
  predicate OwnKeySettled(me: NodeId, m: Members, ops: seq<Op>, live: Members) {
    forall j | 0 <= j < |ops| && LastWord(me, m, ops, j) :: Holds(live, me, ops[j].newPubKey)
  }

  /** The numbers were right from the start, or have been recomputed live, or not even in replay. */
  predicate NumbersSettled(me: NodeId, m: Members, ops: seq<Op>) {
    ops == [] || SameNumbers(m, Recomputed(m)) || SomeTaken(me, m, ops)
  }

  lemma TablesAgreeIff(me: NodeId, m: Members, ops: seq<Op>)
    ensures SameTables(FoldLive(me, m, ops).0, FoldReplayed(m, ops).0) <==> OwnKeySettled(me, m, ops, FoldLive(me, m, ops).0)
  {
    hide FoldLive, FoldReplayed, Missed, LastWord, Rekeyed;
    FoldsDifferInMissedKey(me, m, ops);
    MissedIsLastWord(me, m, ops);
    var live, key := FoldLive(me, m, ops).0, Missed(me, m, ops);
    if key.Some? {
      var j :| 0 <= j < |ops| && LastWord(me, m, ops, j);
      OverIsHeld(live, me, key.value);
    }
  }

  lemma OverIsHeld(m: Members, id: NodeId, key: PublicKey)
    requires id in m.peerMap
    ensures SameTables(m, Over(m, id, Some(key))) <==> Holds(m, id, key)
  {
    assert m.peerMap[id := key][id] == key;
    assert m.peerMap[id] == key ==> m.peerMap[id := key] == m.peerMap;
  }

  /** Numbers of a fold: recomputed by the last change that was not refused. */
  lemma {:induction false} LiveNumbers(me: NodeId, m: Members, ops: seq<Op>)
    ensures var live := FoldLive(me, m, ops).0;
      if SomeTaken(me, m, ops) then SameNumbers(live, Recomputed(live)) else live == m
  {
    if ops != [] {
      hide Refuses, Changed, SomeTaken, Recomputed, SameNumbers;
      var n := |ops| - 1;
      LiveNumbers(me, m, ops[..n]);
      SomeTakenSplit(me, m, ops);
      OneChangeNumbers(me, FoldLive(me, m, ops[..n]).0, ops[n]);
    }
  }

  /** Some operation was not refused. */
  predicate SomeTaken(me: NodeId, m: Members, ops: seq<Op>) {
    exists k :: 0 <= k < |ops| && !Refuses(me, FoldLive(me, m, ops[..k]).0, ops[k])
  }

  lemma SomeTakenSplit(me: NodeId, m: Members, ops: seq<Op>)
    requires ops != []
    ensures var init, op := ops[..|ops| - 1], ops[|ops| - 1];
      SomeTaken(me, m, ops) <==> SomeTaken(me, m, init) || !Refuses(me, FoldLive(me, m, init).0, op)
  {
    hide Refuses, FoldLive;
    var n := |ops| - 1;
    assert forall k | 0 <= k < n :: ops[..k] == ops[..n][..k] && ops[k] == ops[..n][k];
    if SomeTaken(me, m, ops[..n]) {
      var k :| 0 <= k < n && !Refuses(me, FoldLive(me, m, ops[..n][..k]).0, ops[..n][k]);
      assert !Refuses(me, FoldLive(me, m, ops[..k]).0, ops[k]);
    }
  }

  lemma OneChangeNumbers(me: NodeId, m: Members, op: Op)
    ensures var m' := ApplyLive(me, m, op).0;
      if Refuses(me, m, op) then m' == m else SameNumbers(m', Recomputed(m'))
  {
    hide Changed;
  }

  lemma ReplayedNumbers(m: Members, ops: seq<Op>)
    requires ops != []
    ensures var replayed := FoldReplayed(m, ops).0; SameNumbers(replayed, Recomputed(replayed))
  {
    hide Changed;
  }

  lemma SizesAgree(me: NodeId, m: Members, ops: seq<Op>)
    ensures |FoldLive(me, m, ops).0.roster| == |FoldReplayed(m, ops).0.roster|
  {
    hide FoldLive, FoldReplayed, Missed, Rekeyed;
    FoldsDifferInMissedKey(me, m, ops);
    var key := Missed(me, m, ops);
    if key.Some? {
      RekeyedOnly(FoldLive(me, m, ops).0.roster, me, key.value);
    }
  }

  lemma NumbersAgreeIff(me: NodeId, m: Members, ops: seq<Op>)
    ensures SameNumbers(FoldLive(me, m, ops).0, FoldReplayed(m, ops).0) <==> NumbersSettled(me, m, ops)
  {
    hide FoldLive, FoldReplayed, SomeTaken;
    SizesAgree(me, m, ops);
    LiveNumbers(me, m, ops);
    if ops == [] {
      NothingToDo(me, m);
    } else {
      ReplayedNumbers(m, ops);
    }
  }

  lemma NothingToDo(me: NodeId, m: Members)
    ensures FoldLive(me, m, []).0 == m && FoldReplayed(m, []).0 == m
  {
  }

  /** What has been scheduled and not applied yet. */
  function Unapplied(cs: seq<Change>): seq<Change> {
    if cs == [] then []
    else
      var init, c := Unapplied(cs[..|cs| - 1]), cs[|cs| - 1];
      if c.applied then init else init + [c]
  }

  lemma {:induction false} NoneUnapplied(done: seq<Change>)
    requires forall i | 0 <= i < |done| :: done[i].applied
    ensures Unapplied(done) == []
  {
    if done != [] {
      NoneUnapplied(done[..|done| - 1]);
    }
  }

  lemma {:induction false} UnappliedSplit(done: seq<Change>, waiting: seq<Change>)
    requires (forall i | 0 <= i < |done| :: done[i].applied) && (forall i | 0 <= i < |waiting| :: !waiting[i].applied)
    ensures Unapplied(done + waiting) == waiting
    decreases |waiting|
  {
    var cs := done + waiting;
    if waiting == [] {
      assert cs == done;
      NoneUnapplied(done);
    } else {
      var init := waiting[..|waiting| - 1];
      assert cs[..|cs| - 1] == done + init && cs[|cs| - 1] == waiting[|waiting| - 1];
      UnappliedSplit(done, init);
      assert init + [waiting[|waiting| - 1]] == waiting;
    }
  }

  /** The operations in force at a height. */
  function InForce(blocks: seq<Block>): seq<Op> {
    Ops(Changes(Settled(blocks)))
  }

  /** The replay theorem. For every chain and every initial membership, expulsions and waiting changes
    always agree, and nonces if all transactions are well typed. Roster and key table agree exactly if
    every refused rotation of the node's own key was overridden or asked for the key it holds; n, f and
    threshold agree exactly if they were right before, or nothing is in force, or not all was refused;
    the outcomes on record agree exactly if nothing was refused. */
  lemma ReplayAgreesIff(me: NodeId, m: Members, blocks: seq<Block>)
    ensures var live, replayed, ops := Live(me, m, blocks), Replayed(m, blocks), InForce(blocks);
      && live.expelled == replayed.expelled
      && Unapplied(live.pendingChanges) == replayed.pendingChanges
      && replayed.membershipNonces <= live.membershipNonces
      && (WellTyped(blocks) ==> live.membershipNonces == replayed.membershipNonces)
      && (SameTables(live.members, replayed.members) <==> OwnKeySettled(me, m, ops, live.members))
      && (SameNumbers(live.members, replayed.members) <==> NumbersSettled(me, m, ops))
      && (Outcomes(live.log) == Outcomes(replayed.log) <==> NoneRefused(me, m, ops))
  {
    hide Outcomes, Live, Replayed, NoneRefused, FoldLive, FoldReplayed, WellTyped, OwnKeySettled, NumbersSettled,
         SameTables, SameNumbers, InForce;
    LiveShape(me, m, blocks);
    ReplayedShape(m, blocks);
    if blocks != [] {
      ChangesInHeights(blocks[|blocks| - 1], |blocks| - 1);
    }
    UnappliedSplit(Done(Changes(Settled(blocks))), Latest(blocks));
    InForceIs(blocks);
    TablesAgreeIff(me, m, InForce(blocks));
    NumbersAgreeIff(me, m, InForce(blocks));
    OutcomesAgreeIff(me, m, InForce(blocks));
  }

  lemma InForceIs(blocks: seq<Block>)
    ensures InForce(blocks) == Ops(Changes(Settled(blocks)))
  {
  }

  /** Hence the whole membership agrees exactly under the two conditions together. */
  lemma MembersAgreeIff(me: NodeId, m: Members, blocks: seq<Block>)
    ensures Live(me, m, blocks).members == Replayed(m, blocks).members <==>
            OwnKeySettled(me, m, InForce(blocks), Live(me, m, blocks).members) && NumbersSettled(me, m, InForce(blocks))
  {
    hide Live, Replayed, OwnKeySettled, NumbersSettled, Outcomes, InForce, Unapplied, NoneRefused, WellTyped;
    ReplayAgreesIff(me, m, blocks);
  }

  /** Whatever was refused, replay gets the same ids in the same places, and the same keys for
    everybody but the node itself. */
  lemma OnlyOwnKeyDiffers(me: NodeId, m: Members, blocks: seq<Block>)
    ensures var live, replayed := Live(me, m, blocks).members, Replayed(m, blocks).members;
      && live.peerMap.Keys == replayed.peerMap.Keys && |live.roster| == |replayed.roster|
      && (forall id | id in live.peerMap && id != me :: live.peerMap[id] == replayed.peerMap[id])
      && (forall i | 0 <= i < |live.roster| :: live.roster[i].nodeId == replayed.roster[i].nodeId)
      && (forall i | 0 <= i < |live.roster| && live.roster[i].nodeId != me :: live.roster[i] == replayed.roster[i])
  {
    hide Live, Replayed, Outcomes, FoldLive, FoldReplayed, Missed, Rekeyed, Changes, Done, Latest;
    LiveShape(me, m, blocks);
    ReplayedShape(m, blocks);
    var ops := Ops(Changes(Settled(blocks)));
    FoldsDifferInMissedKey(me, m, ops);
    var live, key := FoldLive(me, m, ops).0, Missed(me, m, ops);
    if key.Some? {
      RekeyedOnly(live.roster, me, key.value);
    }
  }

  /** In particular all agree when every rotation of the node's own key is to a usable key. */
  lemma UsableOwnKeysAgree(me: NodeId, m: Members, blocks: seq<Block>)
    requires forall i, j | 0 <= i < |blocks| && 0 <= j < |blocks[i]| && blocks[i][j].Membership? ::
               blocks[i][j].op.Rotate? && blocks[i][j].op.nodeId == me ==> blocks[i][j].op.newPubKey.Usable?
    ensures Live(me, m, blocks).members == Replayed(m, blocks).members
  {
    hide Live, Replayed, FoldLive, FoldReplayed, Outcomes;
    LiveShape(me, m, blocks);
    ReplayedShape(m, blocks);
    if blocks != [] {
      OpsComeFromBlocks(Settled(blocks));
    }
    forall k | 0 <= k < |InForce(blocks)| ensures !Refuses(me, FoldLive(me, m, InForce(blocks)[..k]).0, InForce(blocks)[k]) {
      var op := Changes(Settled(blocks))[k].op;
      assert Asks(Settled(blocks), op);
      var i, j :| 0 <= i < |Settled(blocks)| && 0 <= j < |Settled(blocks)[i]| && Settled(blocks)[i][j].Membership? && Settled(blocks)[i][j].op == op;
      assert blocks[i][j].op == op;
    }
    UnrefusedFoldsAgree(me, m, InForce(blocks));
  }

  predicate TxsAsk(txs: seq<Tx>, op: Op) {
    exists j :: 0 <= j < |txs| && txs[j].Membership? && txs[j].op == op
  }

  predicate Asks(blocks: seq<Block>, op: Op) {
    exists i, j :: 0 <= i < |blocks| && 0 <= j < |blocks[i]| && blocks[i][j].Membership? && blocks[i][j].op == op
  }

  lemma {:induction false} OpsComeFromBlocks(blocks: seq<Block>)
    ensures forall c | c in Changes(blocks) :: Asks(blocks, c.op)
  {
    if blocks != [] {
      var init, last := blocks[..|blocks| - 1], |blocks| - 1;
      OpsComeFromBlocks(init);
      OpsComeFromBlock(blocks[last], last);
      forall c | c in Changes(blocks) ensures Asks(blocks, c.op) {
        if c in Changes(init) {
          var i, j :| 0 <= i < |init| && 0 <= j < |init[i]| && init[i][j].Membership? && init[i][j].op == c.op;
          assert blocks[i][j] == init[i][j];
        } else {
          assert c in ChangesIn(blocks[last], last);
          var j :| 0 <= j < |blocks[last]| && blocks[last][j].Membership? && blocks[last][j].op == c.op;
        }
      }
    }
  }

  lemma {:induction false} OpsComeFromBlock(txs: seq<Tx>, height: nat)
    ensures forall c | c in ChangesIn(txs, height) :: TxsAsk(txs, c.op)
  {
    if txs != [] {
      var init := txs[..|txs| - 1];
      OpsComeFromBlock(init, height);
      forall c | c in ChangesIn(txs, height) ensures TxsAsk(txs, c.op) {
        if c in ChangesIn(init, height) {
          var j :| 0 <= j < |init| && init[j].Membership? && init[j].op == c.op;
          assert txs[j] == init[j];
        } else {
          assert txs[|txs| - 1].Membership? && txs[|txs| - 1].op == c.op;
        }
      }
    }
  }

  lemma BaseChanges(block: Block)
    ensures Changes([block]) == ChangesIn(block, 0)
  {
    var blocks := [block];
    assert blocks[..0] == [];
  }

  /** A node whose rotation to an unusable key is on the chain drops it live, but takes it up after a
    restart: its key table then differs from the one it had. Today's check before a vote refuses such a
    rotation (phase6/vap-to-membership.mjs:447-464), so only blocks older than that check carry one. */
  lemma UnusableKeyDiverges()
    ensures var m := Members([Member(0, Usable(7))], map[0 := Usable(7)], 1, 0, 1);
      var blocks := [[Membership(Rotate(0, Unusable(5)), Text("0"), Text("r"))], []];
      && Live(0, m, blocks).members.peerMap == map[0 := Usable(7)]
      && Replayed(m, blocks).members.peerMap == map[0 := Unusable(5)]
  {
    var m := Members([Member(0, Usable(7))], map[0 := Usable(7)], 1, 0, 1);
    var op := Rotate(0, Unusable(5));
    var block := [Membership(op, Text("0"), Text("r"))];
    var blocks := [block, []];
    assert Settled(blocks) == [block];
    BaseChanges(block);
    OneChange(block, op);
    assert InForce(blocks) == [op];
    OneOp(0, m, op);
    assert Recomputed(Changed(m, op)).peerMap == map[0 := Unusable(5)];
    hide Live, Replayed, FoldLive, FoldReplayed, Changes, InForce;
    LiveShape(0, m, blocks);
    ReplayedShape(m, blocks);
  }

  lemma OneChange(block: Block, op: Op)
    requires |block| == 1 && block[0].Membership? && block[0].op == op
    ensures ChangesIn(block, 0) == [Change(op, 0, 2, false)]
  {
    assert block[..0] == [];
  }

  lemma OneOp(me: NodeId, m: Members, op: Op)
    ensures FoldLive(me, m, [op]).0 == ApplyLive(me, m, op).0 && FoldReplayed(m, [op]).0 == ApplyReplayed(m, op).0
  {
    assert [op][..0] == [];
  }

  /** The membership at a height depends only on the blocks up to two below it: chains that differ in
    nothing but their last block have equal memberships. */
  lemma LastBlockDoesNotCount(me: NodeId, m: Members, blocks: seq<Block>, a: Block, b: Block)
    ensures Live(me, m, blocks + [a]).members == Live(me, m, blocks + [b]).members
    ensures Replayed(m, blocks + [a]).members == Replayed(m, blocks + [b]).members
  {
    hide Live, Replayed;
    assert Settled(blocks + [a]) == blocks && Settled(blocks + [b]) == blocks;
    LiveShape(me, m, blocks + [a]);
    LiveShape(me, m, blocks + [b]);
    ReplayedShape(m, blocks + [a]);
    ReplayedShape(m, blocks + [b]);
  }

  // ------------------------------------------------------------------ the roster and the key table

  function Listed(roster: seq<Member>): set<Member> {
    set r | r in roster
  }

  function Table(peerMap: map<NodeId, PublicKey>): set<Member> {
    set id | id in peerMap :: Member(id, peerMap[id])
  }

  function Others(members: set<Member>, id: NodeId): set<Member> {
    set r | r in members && r.nodeId != id
  }

  predicate StrictlySorted(roster: seq<Member>) {
    forall i, j | 0 <= i < j < |roster| :: roster[i].nodeId < roster[j].nodeId
  }

  /** The roster is strictly sorted and lists exactly the entries of the key table. */
  predicate Consistent(m: Members) {
    StrictlySorted(m.roster) && Listed(m.roster) == Table(m.peerMap)
  }

  lemma {:induction false} InsertKeepsOrder(roster: seq<Member>, x: Member)
    requires StrictlySorted(roster) && forall r | r in roster :: r.nodeId != x.nodeId
    ensures StrictlySorted(Insert(roster, x)) && Listed(Insert(roster, x)) == Listed(roster) + {x}
  {
    if roster == [] || roster[|roster| - 1].nodeId <= x.nodeId {
      ListedPush(roster, x);
      LargestPushed(roster, x);
    } else {
      hide StrictlySorted;
      SortedPrefix(roster);
      var init, last := roster[..|roster| - 1], roster[|roster| - 1];
      assert roster == init + [last];
      InsertKeepsOrder(init, x);
      ListedPush(init, last);
      LargestLast(init, last, Insert(init, x), x);
      ListedPush(Insert(init, x), last);
    }
  }

  lemma LargestPushed(roster: seq<Member>, x: Member)
    requires StrictlySorted(roster) && (roster == [] || roster[|roster| - 1].nodeId <= x.nodeId)
    requires forall r | r in roster :: r.nodeId != x.nodeId
    ensures StrictlySorted(roster + [x])
  {
    if roster != [] {
      assert roster[|roster| - 1] in roster;
    }
  }

  lemma SortedPrefix(roster: seq<Member>)
    requires StrictlySorted(roster) && roster != []
    ensures StrictlySorted(roster[..|roster| - 1])
  {
  }

  lemma LargestLast(init: seq<Member>, last: Member, more: seq<Member>, x: Member)
    requires StrictlySorted(init + [last]) && x.nodeId < last.nodeId
    requires StrictlySorted(more) && Listed(more) == Listed(init) + {x}
    ensures StrictlySorted(more + [last])
  {
    var all := init + [last];
    forall r | r in init ensures r.nodeId < last.nodeId {
      var k :| 0 <= k < |init| && init[k] == r;
      assert all[k].nodeId < all[|init|].nodeId;
    }
    forall i | 0 <= i < |more| ensures more[i].nodeId < last.nodeId {
      assert more[i] in Listed(more);
    }
  }

  lemma {:induction false} SortedStays(roster: seq<Member>)
    requires StrictlySorted(roster)
    ensures Sorted(roster) == roster
  {
    hide Insert;
    if roster != [] {
      var init, last := roster[..|roster| - 1], roster[|roster| - 1];
      SortedStays(init);
      InsertLast(init, last);
      assert init + [last] == roster;
    }
  }

  lemma InsertLast(roster: seq<Member>, x: Member)
    requires roster == [] || roster[|roster| - 1].nodeId <= x.nodeId
    ensures Insert(roster, x) == roster + [x]
  {
  }

  lemma ListedPush(roster: seq<Member>, x: Member)
    ensures Listed(roster + [x]) == Listed(roster) + {x}
  {
  }

  lemma {:induction false} WithoutDrops(roster: seq<Member>, id: NodeId)
    requires StrictlySorted(roster)
    ensures StrictlySorted(Without(roster, id)) && Listed(Without(roster, id)) == Others(Listed(roster), id)
  {
    if roster != [] {
      var init, last := roster[..|roster| - 1], roster[|roster| - 1];
      assert roster == init + [last];
      ListedPush(init, last);
      ListedPush(Without(init, id), last);
      WithoutDrops(init, id);
      forall i | 0 <= i < |Without(init, id)| ensures Without(init, id)[i].nodeId < last.nodeId {
        assert Without(init, id)[i] in Listed(Without(init, id));
      }
    }
  }

  lemma {:induction false} RekeyedChanges(roster: seq<Member>, id: NodeId, key: PublicKey)
    requires StrictlySorted(roster)
    ensures |Rekeyed(roster, id, key)| == |roster|
    ensures forall i | 0 <= i < |roster| ::
      Rekeyed(roster, id, key)[i] == if roster[i].nodeId == id then Member(id, key) else roster[i]
  {
    if roster != [] && roster[0].nodeId != id {
      RekeyedChanges(roster[1..], id, key);
    }
  }

  lemma RekeyedListed(roster: seq<Member>, id: NodeId, key: PublicKey, at: nat)
    requires StrictlySorted(roster) && at < |roster| && roster[at].nodeId == id
    ensures StrictlySorted(Rekeyed(roster, id, key))
    ensures Listed(Rekeyed(roster, id, key)) == Others(Listed(roster), id) + {Member(id, key)}
  {
    RekeyedChanges(roster, id, key);
    hide Rekeyed, StrictlySorted;
    var after := Rekeyed(roster, id, key);
    forall r | r in Listed(after) ensures r in Others(Listed(roster), id) + {Member(id, key)} {
      var i :| 0 <= i < |after| && after[i] == r;
      assert roster[i] in Listed(roster);
    }
    forall r | r in Others(Listed(roster), id) + {Member(id, key)} ensures r in Listed(after) {
      if r == Member(id, key) {
        assert after[at] == r;
      } else {
        var i :| 0 <= i < |roster| && roster[i] == r;
        assert after[i] == r;
      }
    }
  }

  lemma TableOf(peerMap: map<NodeId, PublicKey>, id: NodeId, key: PublicKey)
    ensures Table(peerMap[id := key]) == Others(Table(peerMap), id) + {Member(id, key)}
    ensures Table(peerMap - {id}) == Others(Table(peerMap), id)
    ensures id in peerMap <==> exists r :: r in Table(peerMap) && r.nodeId == id
  {
    assert id in peerMap ==> Member(id, peerMap[id]) in Table(peerMap);
    var put, cut := peerMap[id := key], peerMap - {id};
    forall r: Member
      ensures r in Table(put) <==> r in Others(Table(peerMap), id) || r == Member(id, key)
      ensures r in Table(cut) <==> r in Others(Table(peerMap), id)
    {
      InTable(put, r);
      InTable(cut, r);
      InTable(peerMap, r);
    }
  }

  lemma InTable(peerMap: map<NodeId, PublicKey>, r: Member)
    ensures r in Table(peerMap) <==> r.nodeId in peerMap && peerMap[r.nodeId] == r.pubKey
  {
    if r.nodeId in peerMap && peerMap[r.nodeId] == r.pubKey {
      assert r == Member(r.nodeId, peerMap[r.nodeId]);
    }
  }

  lemma JoinedConsistent(m: Members, id: NodeId, key: PublicKey)
    requires Consistent(m) && id !in m.peerMap
    ensures Consistent(m.(roster := Sorted(m.roster + [Member(id, key)]), peerMap := m.peerMap[id := key]))
  {
    hide Table;
    TableOf(m.peerMap, id, key);
    forall r | r in m.roster ensures r.nodeId != id {
      assert r in Listed(m.roster);
    }
    SortedStays(m.roster);
    assert (m.roster + [Member(id, key)])[..|m.roster|] == m.roster;
    InsertKeepsOrder(m.roster, Member(id, key));
    assert Others(Listed(m.roster), id) == Listed(m.roster);
  }

  lemma RemovedConsistent(m: Members, id: NodeId)
    requires Consistent(m) && id in m.peerMap
    ensures Consistent(m.(roster := Without(m.roster, id), peerMap := m.peerMap - {id}))
  {
    hide Table, Listed;
    TableOf(m.peerMap, id, m.peerMap[id]);
    WithoutDrops(m.roster, id);
  }

  lemma RotatedConsistent(m: Members, id: NodeId, key: PublicKey)
    requires Consistent(m) && id in m.peerMap
    ensures Consistent(m.(roster := Rekeyed(m.roster, id, key), peerMap := m.peerMap[id := key]))
  {
    hide Table;
    TableOf(m.peerMap, id, key);
    var r :| r in Table(m.peerMap) && r.nodeId == id;
    assert r in Listed(m.roster);
    var at :| 0 <= at < |m.roster| && m.roster[at] == r;
    RekeyedListed(m.roster, id, key, at);
  }

  /** Every change keeps the roster sorted and in step with the key table, and does to the table
    exactly what it says: a join adds a missing id, a removal drops it, a rotation replaces its key. */
  lemma ChangedKeepsConsistent(m: Members, op: Op)
    requires Consistent(m)
    ensures Consistent(Changed(m, op))
    ensures var before, after := m.peerMap, Changed(m, op).peerMap;
      match op
      case Join(id, key) => after == if id in before then before else before[id := key]
      case Rotate(id, key) => after == if id in before then before[id := key] else before
      case Report => after == before
      case _ => after == before - {op.nodeId}
  {
    hide Consistent, Sorted, Without, Rekeyed;
    match op
    case Join(id, key) =>
      if id !in m.peerMap {
        JoinedConsistent(m, id, key);
      }
    case Rotate(id, key) =>
      if id in m.peerMap {
        RotatedConsistent(m, id, key);
      }
    case Report =>
    case _ =>
      if op.nodeId in m.peerMap {
        RemovedConsistent(m, op.nodeId);
      }
  }

  /** At every height the roster is sorted, mirrors the key table, and once a change has been applied
    n, f and threshold are those of its size. */
  lemma {:induction false} LiveConsistent(me: NodeId, m: Members, ops: seq<Op>)
    requires Consistent(m)
    ensures var m' := FoldLive(me, m, ops).0;
      Consistent(m') && (m' == Recomputed(m') || m' == m)
  {
    hide Changed;
    if ops != [] {
      LiveConsistent(me, m, ops[..|ops| - 1]);
      ChangedKeepsConsistent(FoldLive(me, m, ops[..|ops| - 1]).0, ops[|ops| - 1]);
    }
  }

  lemma RosterStaysConsistent(me: NodeId, m: Members, blocks: seq<Block>)
    requires Consistent(m)
    ensures Consistent(Live(me, m, blocks).members)
  {
    hide Live;
    LiveShape(me, m, blocks);
    LiveConsistent(me, m, InForce(blocks));
  }

  /** On a consistent membership the key held is simply the one in the table. */
  lemma HoldsIsTableKey(m: Members, id: NodeId, key: PublicKey)
    requires Consistent(m)
    ensures Holds(m, id, key) <==> id in m.peerMap && m.peerMap[id] == key
  {
    if id in m.peerMap && m.peerMap[id] == key {
      RekeyedChanges(m.roster, id, key);
      forall i | 0 <= i < |m.roster| ensures Rekeyed(m.roster, id, key)[i] == m.roster[i] {
        assert m.roster[i] in Listed(m.roster) && m.roster[i] in Table(m.peerMap);
        InTable(m.peerMap, m.roster[i]);
      }
    }
  }
}
