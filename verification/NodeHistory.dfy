/** What a node has been told shows in its state, over every life of calls and restarts (phase5/vap-to.mjs). */
module NodeHistory {
  import opened Wrappers
  import opened Endorse
  import opened Blocks
  import opened NodeState
  import opened Ledger
  import opened Protocol
  import opened Recovery
  import opened VoteMeaning
  import ViewChanges

  // ------------------------------------------------------------------ the mempool

  function KeysOf(txs: seq<Tx>): set<string> {
    set i | 0 <= i < |txs| && txs[i].Commit? :: txs[i].from + ":" + txs[i].nonce
  }

  /** The mempool holds commit transactions, no key twice, and the keys on record are theirs. */
  predicate Pooled(txs: seq<Tx>, keys: set<string>) {
    DistinctCommits(txs) && keys == KeysOf(txs)
  }

  lemma PooledMore(txs: seq<Tx>, keys: set<string>, tx: Tx)
    requires Pooled(txs, keys) && tx.Commit? && tx.from + ":" + tx.nonce !in keys
    ensures Pooled(txs + [tx], keys + {tx.from + ":" + tx.nonce})
  {
    var more := txs + [tx];
    assert more[|txs|] == tx && forall i | 0 <= i < |txs| :: more[i] == txs[i];
    forall i | 0 <= i < |txs| ensures txs[i].from + ":" + txs[i].nonce != tx.from + ":" + tx.nonce {
      assert txs[i].Commit? && txs[i].from + ":" + txs[i].nonce in KeysOf(txs);
    }
    assert KeysOf(more) == KeysOf(txs) + {tx.from + ":" + tx.nonce};
  }

  /** A transaction is taken exactly if it is a commit whose key is neither committed nor pending. */
  lemma SubmitsIff(s: State, tx: Tx)
    requires Pooled(s.pendingTxs, s.pendingNonces)
    ensures var t := Submitted(s, tx);
      && t == s.(pendingTxs := t.pendingTxs, pendingNonces := t.pendingNonces) && Pooled(t.pendingTxs, t.pendingNonces)
      && t.pendingTxs ==
           if tx.Commit? && tx.from + ":" + tx.nonce !in s.seenNonces
              && forall i | 0 <= i < |s.pendingTxs| && s.pendingTxs[i].Commit? ::
                  s.pendingTxs[i].from + ":" + s.pendingTxs[i].nonce != tx.from + ":" + tx.nonce
           then s.pendingTxs + [tx] else s.pendingTxs
  {
    hide DistinctCommits;
    if AcceptsTx(s, tx) {
      PooledMore(s.pendingTxs, s.pendingNonces, tx);
    }
  }

  lemma ProposedPooled(p: Params, s: State, v: int)
    requires p.Valid() && Pooled(s.pendingTxs, s.pendingNonces)
    ensures var t := Proposed(p, s, v); Pooled(t.pendingTxs, t.pendingNonces)
  {
    hide NewProposal;
  }

  lemma {:induction false} CommitAllLeaves(s: State, bs: seq<Proposal>)
    ensures var t := CommitAll(s, bs);
      t.pendingTxs == s.pendingTxs && t.pendingNonces == s.pendingNonces && t.expelled == s.expelled
  {
    if bs != [] {
      CommitAllLeaves(s, bs[..|bs| - 1]);
    }
  }

  lemma VotedLeaves(p: Params, s: State, b: Proposal)
    requires p.Valid()
    ensures var t := Voted(p, s, b).0;
      t.pendingTxs == s.pendingTxs && t.pendingNonces == s.pendingNonces && t.expelled == s.expelled
  {
    hide Voted, Votable, VoteKeptIn, NoVoteIn;
    VoteEffect(p, s, b);
  }

  lemma OthersLeave(p: Params, s: State, c: Call)
    requires p.Valid() && !c.Propose? && !c.VoteOn? && !c.CommitCheck? && !c.ProposeNewView? && !c.Submit? && !c.Expel?
    ensures var t := After(p, s, c);
      t.pendingTxs == s.pendingTxs && t.pendingNonces == s.pendingNonces && t.expelled == s.expelled
  {
    hide CollectedQC, AggregatedNewView, RejectsAnchor, AcceptsViewChange, OwnViewChange;
  }

  lemma NewViewLeaves(p: Params, s: State, view: int)
    ensures var nv := AggregatedNewView(p, s, view);
      nv.Some? ==>
        var t := AdoptedNewView(p, Aggregated(p, s, view), nv.value);
        && t.pendingTxs == s.pendingTxs && t.pendingNonces == s.pendingNonces && t.expelled == s.expelled
        && Aggregated(p, s, view).pendingTxs == s.pendingTxs && Aggregated(p, s, view).pendingNonces == s.pendingNonces
        && Aggregated(p, s, view).expelled == s.expelled
  {
    hide AggregatedNewView, RejectsAnchor;
  }

  lemma ProposedLeaves(p: Params, s: State, v: int)
    requires p.Valid()
    ensures Proposed(p, s, v).expelled == s.expelled
  {
    hide NewProposal;
  }

  /** Nobody but `expel` expels, and nobody is taken back. */
  lemma ExpelsOnly(p: Params, s: State, c: Call)
    requires p.Valid()
    ensures After(p, s, c).expelled == s.expelled + if c.Expel? then {c.id} else {}
  {
    hide Proposed, Voted, Collected, TimedOut, ReceivedViewChange, Aggregated, AdoptedNewView,
         AggregatedNewView, RejectsAnchor, CommitAll;
    match c
    case Propose(v) => ProposedLeaves(p, s, v);
    case VoteOn(b) => VotedLeaves(p, s, b);
    case CommitCheck => CommitAllLeaves(s, SortByView(Candidates(s, s.blockOrder)));
    case ProposeNewView(v) =>
      var nv := AggregatedNewView(p, s, v);
      NewViewLeaves(p, s, v);
      if nv.Some? {
        ProposedLeaves(p, AdoptedNewView(p, Aggregated(p, s, v), nv.value), v);
      }
    case Expel(_) =>
    case Submit(_) =>
    case _ => OthersLeave(p, s, c);
  }

  lemma AfterPooled(p: Params, s: State, c: Call)
    requires p.Valid() && Pooled(s.pendingTxs, s.pendingNonces)
    ensures var t := After(p, s, c); Pooled(t.pendingTxs, t.pendingNonces)
  {
    hide Pooled, Proposed, Voted, Collected, TimedOut, ReceivedViewChange, Aggregated, AdoptedNewView,
         AggregatedNewView, RejectsAnchor, CommitAll, Submitted;
    match c
    case Propose(v) => ProposedPooled(p, s, v);
    case VoteOn(b) => VotedLeaves(p, s, b);
    case CommitCheck => CommitAllLeaves(s, SortByView(Candidates(s, s.blockOrder)));
    case ProposeNewView(v) =>
      var nv := AggregatedNewView(p, s, v);
      NewViewLeaves(p, s, v);
      if nv.Some? {
        ProposedPooled(p, AdoptedNewView(p, Aggregated(p, s, v), nv.value), v);
      }
    case Expel(_) =>
    case Submit(tx) => SubmitsIff(s, tx);
    case _ => OthersLeave(p, s, c);
  }

  lemma {:induction false} ReinstatedLeaves(s: State, blocks: seq<Proposal>)
    ensures var t := ReinstatedAll(s, blocks);
      t.pendingTxs == s.pendingTxs && t.pendingNonces == s.pendingNonces && t.expelled == s.expelled
  {
    if blocks != [] {
      ReinstatedLeaves(s, blocks[..|blocks| - 1]);
    }
  }

  lemma RestoredLeaves(p: Params, s: State, lines: seq<Line>, snap: Option<Snapshot>)
    ensures var t := Restored(p, s, lines, snap); t.pendingTxs == [] && t.pendingNonces == {} && t.expelled == s.expelled
  {
    hide Recovered, ReinstatedAll;
    ReinstatedLeaves(Cleared(s), Recovered(p, lines, snap));
  }

  lemma PoolStarts()
    ensures Pooled([], {})
  {
  }

  /** Through every life of a node its mempool holds commit transactions only, no key twice. */
  lemma {:induction false} PoolKept(p: Params, states: seq<State>, events: seq<Event>, i: nat)
    requires p.Valid() && NodeLife(p, states, events) && i < |states|
    ensures Pooled(states[i].pendingTxs, states[i].pendingNonces)
  {
    hide Pooled, After, Restored, NodeLife;
    PoolStarts();
    if i == 0 {
      FirstState(p, states, events);
    } else {
      PoolKept(p, states, events, i - 1);
      NextState(p, states, events, i - 1);
      match events[i - 1]
      case Did(c) => AfterPooled(p, states[i - 1], c);
      case Restart(inPlace, useSnapshot) =>
        var s := states[i - 1];
        RestoredLeaves(p, if inPlace then s else Reopened(s), FileOf(s.ledger), if useSnapshot then s.snapshot else None);
    }
  }

  lemma FirstState(p: Params, states: seq<State>, events: seq<Event>)
    requires p.Valid() && NodeLife(p, states, events)
    ensures |states| == |events| + 1 && states[0] == InitialState
  {
  }

  lemma SamePermuted(a: seq<Tx>, b: seq<Tx>)
    requires DistinctCommits(a) && multiset(a) == multiset(b)
    ensures DistinctCommits(b)
  {
    forall i | 0 <= i < |b| ensures b[i].Commit? {
      assert b[i] in multiset(b) && b[i] in multiset(a);
      var k :| 0 <= k < |a| && a[k] == b[i];
    }
    forall i, j | 0 <= i < j < |b| ensures b[i].from + ":" + b[i].nonce != b[j].from + ":" + b[j].nonce {
      if b[i] == b[j] {
        TwiceIn(b, i, j);
        OnceIn(a, b[i]);
      } else {
        assert b[i] in multiset(a) && b[j] in multiset(a);
        var k :| 0 <= k < |a| && a[k] == b[i];
        var l :| 0 <= l < |a| && a[l] == b[j];
      }
    }
  }

  lemma TwiceIn(b: seq<Tx>, i: nat, j: nat)
    requires i < j < |b| && b[i] == b[j]
    ensures multiset(b)[b[i]] >= 2
  {
    assert b == b[..i] + [b[i]] + b[i + 1..j] + [b[j]] + b[j + 1..];
  }

  lemma {:induction false} OnceIn(a: seq<Tx>, tx: Tx)
    requires DistinctCommits(a)
    ensures multiset(a)[tx] <= 1
  {
    if i :| 0 <= i < |a| && a[i] == tx {
      assert a == a[..i] + [a[i]] + a[i + 1..];
      forall k | 0 <= k < |a| && k != i ensures a[k] != tx {
        if k < i {
          assert a[k].from + ":" + a[k].nonce != a[i].from + ":" + a[i].nonce;
        } else {
          assert a[i].from + ":" + a[i].nonce != a[k].from + ":" + a[k].nonce;
        }
      }
      assert tx !in a[..i] && tx !in a[i + 1..];
    }
  }

  /** So whatever an honest leader proposes, in any life, are distinct commit transactions: those pending, in
    text order; on its highest certificate, in exactly the views it leads and has not left. */
  lemma OwnProposals(p: Params, states: seq<State>, events: seq<Event>, i: nat, v: int)
    requires p.Valid() && NodeLife(p, states, events) && i < |states|
    ensures var s := states[i];
      var t := Proposed(p, s, v);
      if v >= 0 && p.roster[v % p.n] == p.me && s.view <= v then
        && t.activeProposal.Some? && ViewChanges.ProposedOn(p, s, s.highestQC, v, t.activeProposal.value)
        && DistinctCommits(t.activeProposal.value.txs)
      else t == s
  {
    hide NodeLife, Proposed, DistinctCommits, InTextOrder;
    PoolKept(p, states, events, i);
    ViewChanges.ProposesIff(p, states[i], v);
    var t := Proposed(p, states[i], v);
    if v >= 0 && p.roster[v % p.n] == p.me && states[i].view <= v {
      SamePermuted(states[i].pendingTxs, t.activeProposal.value.txs);
    }
  }

  // ------------------------------------------------------------------ expulsion

  /** Expelled by some call since the object was made. */
  predicate ExpelledSince(events: seq<Event>, i: nat, id: NodeId)
    requires i <= |events|
  {
    exists j :: 0 <= j < i && events[j] == Did(Expel(id)) && forall k | j < k < i :: events[k].Restart? ==> events[k].inPlace
  }

  lemma ExpelledSinceMore(events: seq<Event>, i: nat, id: NodeId)
    requires i < |events|
    ensures ExpelledSince(events, i + 1, id) <==>
            if events[i].Restart? && !events[i].inPlace then false
            else ExpelledSince(events, i, id) || events[i] == Did(Expel(id))
  {
  }

  /** In every life of a node exactly those are expelled that a call has expelled since the object was made: no
    other call takes anybody back, and a restart in place forgets nobody. */
  lemma {:induction false} ExpelledTold(p: Params, states: seq<State>, events: seq<Event>, i: nat, id: NodeId)
    requires p.Valid() && NodeLife(p, states, events) && i < |states| && i <= |events|
    ensures id in states[i].expelled <==> ExpelledSince(events, i, id)
  {
    hide After, Restored, NodeLife, ExpelledSince;
    if i == 0 {
      FirstState(p, states, events);
      NobodyYet(events, id);
    } else {
      ExpelledTold(p, states, events, i - 1, id);
      NextState(p, states, events, i - 1);
      ExpelledSinceMore(events, i - 1, id);
      var s := states[i - 1];
      match events[i - 1]
      case Did(c) => ExpelsOnly(p, s, c);
      case Restart(inPlace, useSnapshot) =>
        RestoredLeaves(p, if inPlace then s else Reopened(s), FileOf(s.ledger), if useSnapshot then s.snapshot else None);
    }
  }

  lemma NobodyYet(events: seq<Event>, id: NodeId)
    ensures !ExpelledSince(events, 0, id)
  {
  }

  // ------------------------------------------------------------------ the snapshot

  /** There is a snapshot from the hundredth block on, of the last whole hundred blocks. */
  predicate SnapshotDue(snap: Option<Snapshot>, height: nat) {
    if height < 100 then snap.None? else snap.Some? && snap.value.height == height / 100 * 100
  }

  lemma CommittedDue(s: State, b: Proposal)
    requires SnapshotDue(s.snapshot, |s.committed|)
    ensures SnapshotDue(Committed(s, b).snapshot, |Committed(s, b).committed|)
  {
    hide Nonces;
    Hundreds(|s.committed|);
  }

  lemma Hundreds(n: nat)
    ensures if (n + 1) % 100 == 0 then (n + 1) / 100 * 100 == n + 1 else (n + 1) / 100 == n / 100
  {
  }

  lemma {:induction false} CommitAllDue(s: State, bs: seq<Proposal>)
    requires SnapshotDue(s.snapshot, |s.committed|)
    ensures SnapshotDue(CommitAll(s, bs).snapshot, |CommitAll(s, bs).committed|)
  {
    if bs != [] {
      hide SnapshotDue, Committed;
      var init, b := CommitAll(s, bs[..|bs| - 1]), bs[|bs| - 1];
      CommitAllDue(s, bs[..|bs| - 1]);
      if b.blockHash !in init.committedHashes {
        CommittedDue(init, b);
      }
    }
  }

  lemma AfterDue(p: Params, s: State, c: Call)
    requires p.Valid() && SnapshotDue(s.snapshot, |s.committed|)
    ensures SnapshotDue(After(p, s, c).snapshot, |After(p, s, c).committed|)
  {
    hide SnapshotDue;
    if c.CommitCheck? {
      CommitAllDue(s, SortByView(Candidates(s, s.blockOrder)));
    } else {
      hide After, BlocksAuthentic;
      AfterQuiet(p, s, c);
    }
  }

  /** Through every life of a node the snapshot is that of the last whole hundred of its committed blocks. */
  lemma {:induction false} SnapshotKept(p: Params, states: seq<State>, events: seq<Event>, i: nat)
    requires p.Valid() && NodeLife(p, states, events) && i < |states|
    ensures SnapshotDue(states[i].snapshot, |states[i].committed|)
    ensures states[i].snapshot.Some? ==>
        states[i].snapshot.value.blocks == StoredAll(states[i].committed[..|states[i].committed| / 100 * 100])
  {
    hide SnapshotDue, After, Restored, NodeLife, LedgerInv, FileOf;
    if i == 0 {
      FirstState(p, states, events);
      NoneDue();
    } else {
      SnapshotKept(p, states, events, i - 1);
      NextState(p, states, events, i - 1);
      LifeKeepsLedger(p, states, events, i - 1);
      var s := states[i - 1];
      match events[i - 1]
      case Did(c) => AfterDue(p, s, c);
      case Restart(inPlace, useSnapshot) =>
        RestartKeepsLedger(p, s, if inPlace then s else Reopened(s), if useSnapshot then s.snapshot else None);
    }
    LifeKeepsLedger(p, states, events, i);
    DueBlocks(p, states[i]);
  }

  lemma NoneDue()
    ensures SnapshotDue(InitialState.snapshot, |InitialState.committed|)
  {
  }

  lemma DueBlocks(p: Params, s: State)
    requires SnapshotDue(s.snapshot, |s.committed|) && LedgerInv(p, s)
    ensures s.snapshot.Some? ==> s.snapshot.value.blocks == StoredAll(s.committed[..|s.committed| / 100 * 100])
  {
    hide Mirrors, Authentic, Bookkeeping, BlocksAuthentic;
  }

  /** The block as it is written: everything but the certificate it came with. */
  predicate WrittenAs(b: Proposal, w: Proposal) {
    && w.view == b.view && w.leader == b.leader && w.parentHash == b.parentHash && w.txs == b.txs
    && w.sig == b.sig && w.blockHash == b.blockHash && w.justify == None
  }

  /** Through every life of a node line k of its ledger is committed block k, without certificate, with its
    height and the hash of the block before; and so are the blocks of the snapshot. */
  lemma FilesKept(p: Params, states: seq<State>, events: seq<Event>, i: nat, k: nat)
    requires p.Valid() && NodeLife(p, states, events) && i < |states|
    ensures var s := states[i];
      && |s.ledger| == |s.committed|
      && (k < |s.ledger| ==>
            && WrittenAs(s.committed[k], s.ledger[k].block) && s.ledger[k].height == k
            && s.ledger[k].prevHash == if k == 0 then Genesis else s.committed[k - 1].blockHash)
      && (s.snapshot.Some? && k < |s.snapshot.value.blocks| ==>
            k < |s.committed| && WrittenAs(s.committed[k], s.snapshot.value.blocks[k]))
  {
    hide NodeLife;
    LifeKeepsLedger(p, states, events, i);
    var s := states[i];
    assert k < |s.ledger| ==> LineMatches(s.ledger, s.committed, k);
  }

  // ------------------------------------------------------------------ collecting votes

  /** The votes that count for a block: signed by members not expelled over exactly this block. */
  predicate VotesFor(p: Params, expelled: set<NodeId>, b: Proposal, e: Endorsement<Message>) {
    && e.Endorsement? && e.nodeId in p.keys && e.nodeId !in expelled
    && e.sig == SignedBy(p.keys[e.nodeId], VoteMessage(VoteTarget(b.view, b.blockHash, b.parentHash)))
  }

  function VotersAmong(p: Params, expelled: set<NodeId>, b: Proposal, votes: seq<Endorsement<Message>>): set<NodeId> {
    set i | 0 <= i < |votes| && VotesFor(p, expelled, b, votes[i]) :: votes[i].nodeId
  }

  predicate EnoughVotes(p: Params, s: State, votes: seq<Endorsement<Message>>) {
    s.activeProposal.Some? &&
      var voters := |VotersAmong(p, s.expelled, s.activeProposal.value, votes)|;
      voters >= 2 * p.f + 1 && 3 * voters >= 2 * p.n
  }

  /** The certificate the votes add up to: for the open proposal, one vote of each member that voted. */
  predicate Certifies(p: Params, s: State, votes: seq<Endorsement<Message>>, qc: QC) {
    && s.activeProposal.Some?
    && var b := s.activeProposal.value;
       && qc.view == b.view && qc.blockHash == b.blockHash && qc.parentHash == b.parentHash && !qc.restored
       && (forall e | e in qc.sigs :: e in votes && VotesFor(p, s.expelled, b, e))
       && (forall i, j | 0 <= i < j < |qc.sigs| && qc.sigs[i].Endorsement? && qc.sigs[j].Endorsement? ::
           qc.sigs[i].nodeId != qc.sigs[j].nodeId)
       && |qc.sigs| == |VotersAmong(p, s.expelled, b, votes)|
  }

  lemma VotersAre(p: Params, s: State, b: Proposal, votes: seq<Endorsement<Message>>)
    ensures var message := VoteMessage(VoteTarget(b.view, b.blockHash, b.parentHash));
      && ValidSigners(message, votes, ActiveRoster(p, s)) == VotersAmong(p, s.expelled, b, votes)
      && forall e :: Valid(message, ActiveRoster(p, s), e) <==> VotesFor(p, s.expelled, b, e)
  {
    var message := VoteMessage(VoteTarget(b.view, b.blockHash, b.parentHash));
    forall e ensures Valid(message, ActiveRoster(p, s), e) <==> VotesFor(p, s.expelled, b, e) {
    }
  }

  /** Votes make a certificate exactly if enough members voted for the open proposal; it becomes the highest
    certificate, whatever was the highest before, and the block, if stored, the child on record for its
    parent. Otherwise nothing changes. */
  lemma CollectsIff(p: Params, s: State, votes: seq<Endorsement<Message>>)
    ensures var t := Collected(p, s, votes);
      if EnoughVotes(p, s, votes) then
        && t.highestQC.Some? && Certifies(p, s, votes, t.highestQC.value)
        && var qc := t.highestQC.value;
           && t == s.(highestQC := t.highestQC, childIndex := t.childIndex,
                      qcByBlockHash := s.qcByBlockHash[qc.blockHash := qc])
           && t.childIndex == if qc.blockHash in s.blocks && s.blocks[qc.blockHash].blockHash == qc.blockHash
                              then s.childIndex[s.blocks[qc.blockHash].parentHash := qc.blockHash]
                              else if qc.blockHash in s.blocks then t.childIndex else s.childIndex
      else t == s
  {
    if s.activeProposal.Some? {
      var b := s.activeProposal.value;
      var message := VoteMessage(VoteTarget(b.view, b.blockHash, b.parentHash));
      VotersAre(p, s, b, votes);
      KeptIsValidSigners(message, votes, ActiveRoster(p, s));
      ThresholdIs(p, |VotersAmong(p, s.expelled, b, votes)|);
      hide VotesFor, VotersAmong, Kept, ValidSigners, Valid;
    }
  }

  // ------------------------------------------------------------------ committing in stable order

  function OfView(bs: seq<Proposal>, view: int): seq<Proposal> {
    if bs == [] then []
    else OfView(bs[..|bs| - 1], view) + if bs[|bs| - 1].view == view then [bs[|bs| - 1]] else []
  }

  lemma OfViewPush(bs: seq<Proposal>, b: Proposal, view: int)
    ensures OfView(bs + [b], view) == OfView(bs, view) + if b.view == view then [b] else []
  {
    assert (bs + [b])[..|bs|] == bs;
  }

  lemma {:induction false} InsertStable(sorted: seq<Proposal>, b: Proposal, view: int)
    ensures OfView(InsertByView(sorted, b), view) == OfView(sorted, view) + if b.view == view then [b] else []
  {
    if sorted == [] || sorted[|sorted| - 1].view <= b.view {
      OfViewPush(sorted, b, view);
    } else {
      var init, last := sorted[..|sorted| - 1], sorted[|sorted| - 1];
      InsertStable(init, b, view);
      OfViewPush(InsertByView(init, b), last, view);
    }
  }

  /** Sorting by view leaves blocks of one view in the order they were stored. */
  lemma {:induction false} SortStable(bs: seq<Proposal>, view: int)
    ensures OfView(SortByView(bs), view) == OfView(bs, view)
  {
    if bs != [] {
      SortStable(bs[..|bs| - 1], view);
      InsertStable(SortByView(bs[..|bs| - 1]), bs[|bs| - 1], view);
    }
  }

  // ------------------------------------------------------------------ packing order

  lemma {:induction false} SharedPrefix(prefix: string, a: string, b: string)
    ensures Before(prefix + a, prefix + b) <==> Before(a, b)
  {
    if prefix == [] {
      assert prefix + a == a && prefix + b == b;
    } else {
      assert (prefix + a)[1..] == prefix[1..] + a && (prefix + b)[1..] == prefix[1..] + b;
      SharedPrefix(prefix[1..], a, b);
    }
  }

  /** Transactions are packed by sender first: where two senders differ, the smaller one comes first, whatever
    the nonces; those of one sender are packed by nonce. */
  lemma PackedBySender(shared: string, c: char, d: char, a: string, b: string, m: string, n: string)
    requires c < d
    ensures var x, y := Commit(shared + [c] + a, m), Commit(shared + [d] + b, n); MayPrecede(x, y) && !MayPrecede(y, x)
  {
    var x, y := Commit(shared + [c] + a, m), Commit(shared + [d] + b, n);
    var restX, restY := [c] + (a + ",nonce:" + m + ",type:commit}"), [d] + (b + ",nonce:" + n + ",type:commit}");
    var prefix := "{from:" + shared;
    assert CanonicalText(x) == prefix + restX && CanonicalText(y) == prefix + restY;
    SharedPrefix(prefix, restX, restY);
    SharedPrefix(prefix, restY, restX);
  }

  lemma PackedByNonce(sender: string, m: string, n: string)
    ensures MayPrecede(Commit(sender, m), Commit(sender, n)) <==> !Before(n + ",type:commit}", m + ",type:commit}")
  {
    var prefix := "{from:" + sender + ",nonce:";
    assert CanonicalText(Commit(sender, m)) == prefix + (m + ",type:commit}");
    assert CanonicalText(Commit(sender, n)) == prefix + (n + ",type:commit}");
    SharedPrefix(prefix, n + ",type:commit}", m + ",type:commit}");
  }
}
