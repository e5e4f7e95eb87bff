/** Restart from the ledger (phase5/vap-to.mjs: commitBlock, writeSnapshot, restore): what a node wrote
  while committing is what a restart reads back, with or without the snapshot, and damage costs
  exactly the blocks behind it. */
module Recovery {
  import opened Wrappers
  import opened Endorse
  import opened Blocks
  import opened NodeState
  import opened Ledger
  import opened Protocol
  import Commit

  function PrevHash(bs: seq<Proposal>, i: nat): Hash
    requires i <= |bs|
  {
    if i == 0 then Genesis else bs[i - 1].blockHash
  }

  function AllNonces(bs: seq<Proposal>): set<string> {
    set i, key | 0 <= i < |bs| && key in Nonces(bs[i].txs) :: key
  }

  predicate LineMatches(ledger: seq<Record>, committed: seq<Proposal>, i: nat)
    requires i < |ledger| && i < |committed|
  {
    ledger[i] == Record(i, Stored(committed[i]), PrevHash(committed, i))
  }

  /** The ledger mirrors the committed blocks, line by line. */
  predicate Mirrors(ledger: seq<Record>, committed: seq<Proposal>) {
    |ledger| == |committed| && forall i | 0 <= i < |ledger| :: LineMatches(ledger, committed, i)
  }

  predicate Authentic(p: Params, b: Proposal) {
    b.blockHash == HashBlock(b) && Signed(p, b)
  }

  predicate SnapshotMatches(snap: Snapshot, committed: seq<Proposal>) {
    && 0 < snap.height <= |committed|
    && snap.blocks == StoredAll(committed[..snap.height])
    && snap.lastCommittedHash == committed[snap.height - 1].blockHash
  }

  predicate Bookkeeping(s: State) {
    && s.committedHashes == Commit.Hashes(s.committed)
    && s.lastCommittedHash == PrevHash(s.committed, |s.committed|)
    && s.seenNonces == AllNonces(s.committed)
  }

  predicate BlocksAuthentic(p: Params, blocks: map<Hash, Proposal>) {
    forall h | h in blocks :: Authentic(p, blocks[h]) && blocks[h].blockHash == h
  }

  /** What every node keeps between its state and its files, whatever it is sent. */
  predicate LedgerInv(p: Params, s: State) {
    && Mirrors(s.ledger, s.committed)
    && (forall b | b in s.committed :: Authentic(p, b))
    && (s.snapshot.Some? ==> SnapshotMatches(s.snapshot.value, s.committed))
    && Bookkeeping(s)
    && BlocksAuthentic(p, s.blocks)
  }

  // ------------------------------------------------------------------ kept by every call

  lemma CommittedKeeps(p: Params, s: State, b: Proposal)
    requires LedgerInv(p, s) && Authentic(p, b)
    ensures LedgerInv(p, Committed(s, b))
  {
    var t := Committed(s, b);
    assert t.committed[..|s.committed|] == s.committed;
    forall i | 0 <= i < |t.ledger| ensures LineMatches(t.ledger, t.committed, i) {
      if i < |s.ledger| {
        assert LineMatches(s.ledger, s.committed, i);
      }
    }
    Commit.HashesAppend(s.committed, b);
    SnapshotKeeps(s, b);
    NoncesGrow(s.committed, b);
  }

  lemma SnapshotKeeps(s: State, b: Proposal)
    requires s.snapshot.Some? ==> SnapshotMatches(s.snapshot.value, s.committed)
    ensures var t := Committed(s, b); t.snapshot.Some? ==> SnapshotMatches(t.snapshot.value, t.committed)
  {
    var t := Committed(s, b);
    if t.snapshot.Some? {
      var k := t.snapshot.value.height;
      if |t.committed| % SNAPSHOT_EVERY == 0 {
        assert t.committed[..k] == t.committed;
      } else {
        assert t.committed[..k] == s.committed[..k];
      }
    }
  }

  lemma NoncesGrow(bs: seq<Proposal>, b: Proposal)
    ensures AllNonces(bs + [b]) == AllNonces(bs) + Nonces(b.txs)
  {
    var all := bs + [b];
    assert all[|bs|] == b && forall i | 0 <= i < |bs| :: all[i] == bs[i];
  }

  lemma {:induction false} CommitAllKeepsLedger(p: Params, s: State, bs: seq<Proposal>)
    requires LedgerInv(p, s) && forall b | b in bs :: Authentic(p, b)
    ensures LedgerInv(p, CommitAll(s, bs))
  {
    if bs != [] {
      var init := bs[..|bs| - 1];
      CommitAllKeepsLedger(p, s, init);
      if bs[|bs| - 1].blockHash !in CommitAll(s, init).committedHashes {
        CommittedKeeps(p, CommitAll(s, init), bs[|bs| - 1]);
      }
    }
  }

  lemma CommitCheckKeepsLedger(p: Params, s: State)
    requires LedgerInv(p, s)
    ensures LedgerInv(p, CommitChecked(s))
  {
    var candidates := Candidates(s, s.blockOrder);
    forall b | b in SortByView(candidates) ensures Authentic(p, b) {
      assert multiset(SortByView(candidates)) == multiset(candidates);
      assert b in multiset(SortByView(candidates)) && b in candidates;
    }
    CommitAllKeepsLedger(p, s, SortByView(candidates));
  }

  /** The parts of the state the ledger invariant speaks of. */
  predicate SameFiles(s: State, t: State) {
    && s.ledger == t.ledger && s.snapshot == t.snapshot && s.committed == t.committed
    && s.committedHashes == t.committedHashes && s.lastCommittedHash == t.lastCommittedHash && s.seenNonces == t.seenNonces
  }

  /** A call other than a commit check leaves the files alone and stores only authentic blocks. */
  predicate QuietChange(p: Params, s: State, t: State) {
    SameFiles(s, t) && (BlocksAuthentic(p, s.blocks) ==> BlocksAuthentic(p, t.blocks))
  }

  lemma StoreQuiet(p: Params, s: State, b: Proposal)
    requires Authentic(p, b)
    ensures QuietChange(p, s, StoreBlock(s, b))
  {
  }

  lemma NewProposalAuthentic(p: Params, s: State, view: int)
    requires p.Valid()
    ensures Authentic(p, NewProposal(p, s, view))
  {
    hide SortTxs;
  }

  lemma ProposedQuiet(p: Params, s: State, view: int)
    requires p.Valid()
    ensures QuietChange(p, s, Proposed(p, s, view))
  {
    hide NewProposal, Authentic, BlocksAuthentic;
    NewProposalAuthentic(p, s, view);
    StoreQuiet(p, s, NewProposal(p, s, view));
  }

  lemma VotedQuiet(p: Params, s: State, b: Proposal)
    requires p.Valid()
    ensures QuietChange(p, s, Voted(p, s, b).0)
  {
    VotedCases(p, s, b);
    if Admission(p, s, b).None? {
      AdmittedAuthentic(p, s, b);
    }
    hide Admission, Extension, Authentic, BlocksAuthentic, Voted;
    if Admission(p, s, b).None? {
      StoreQuiet(p, AdoptJustify(s, b), b);
    }
  }

  lemma AdmittedAuthentic(p: Params, s: State, b: Proposal)
    requires p.Valid() && Admission(p, s, b).None?
    ensures Authentic(p, b)
  {
  }

  lemma ProposedNewViewQuiet(p: Params, s: State, view: int)
    requires p.Valid()
    ensures QuietChange(p, s, ProposedNewView(p, s, view))
  {
    hide BlocksAuthentic, Proposed, AggregatedNewView, RejectsAnchor;
    var nv := AggregatedNewView(p, s, view);
    if nv.Some? {
      ProposedQuiet(p, AdoptedNewView(p, Aggregated(p, s, view), nv.value), view);
    }
  }

  lemma AfterKeepsLedger(p: Params, s: State, c: Call)
    requires p.Valid() && LedgerInv(p, s)
    ensures LedgerInv(p, After(p, s, c))
  {
    if c.CommitCheck? {
      CommitCheckKeepsLedger(p, s);
    } else {
      AfterQuiet(p, s, c);
    }
  }

  lemma AfterQuiet(p: Params, s: State, c: Call)
    requires p.Valid() && !c.CommitCheck?
    ensures QuietChange(p, s, After(p, s, c))
  {
    hide Voted, Proposed, ProposedNewView, Collected, CommitChecked, QuietChange, TimedOut, ReceivedViewChange,
         Aggregated, AdoptedNewView, Submitted;
    match c
    case Propose(view) => ProposedQuiet(p, s, view);
    case VoteOn(b) => VotedQuiet(p, s, b);
    case CollectVotes(votes) => CollectedQuiet(p, s, votes);
    case ProposeNewView(view) => ProposedNewViewQuiet(p, s, view);
    case Timeout => FilingQuiet(p, s, c);
    case ReceiveViewChange(vc) => FilingQuiet(p, s, c);
    case _ => OtherQuiet(p, s, c);
  }

  lemma OtherQuiet(p: Params, s: State, c: Call)
    requires p.Valid() && (c.AggregateNewView? || c.AdoptNewView? || c.Expel? || c.Submit?)
    ensures QuietChange(p, s, After(p, s, c))
  {
    hide BlocksAuthentic, AggregatedNewView, RejectsAnchor;
  }

  lemma FilingQuiet(p: Params, s: State, c: Call)
    requires p.Valid() && (c.Timeout? || c.ReceiveViewChange?)
    ensures QuietChange(p, s, After(p, s, c))
  {
    hide BlocksAuthentic, OwnViewChange, AcceptsViewChange, FileViewChange;
    FiledQuiet(p, s, if c.Timeout? then OwnViewChange(p, s) else c.vc);
  }

  lemma FiledQuiet(p: Params, s: State, vc: ViewChange)
    ensures QuietChange(p, s, FileViewChange(s, vc))
  {
    hide BlocksAuthentic;
  }

  lemma CollectedQuiet(p: Params, s: State, votes: seq<Endorsement<Message>>)
    ensures QuietChange(p, s, Collected(p, s, votes))
  {
    hide BlocksAuthentic, CollectedQC;
  }

  // ------------------------------------------------------------------ reading it back

  function FileOf(ledger: seq<Record>): (lines: seq<Line>)
    ensures |lines| == |ledger| && forall i | 0 <= i < |lines| :: lines[i] == Written(ledger[i])
  {
    seq(|ledger|, i requires 0 <= i < |ledger| => Written(ledger[i]))
  }

  lemma {:induction false} AllParse(lines: seq<Line>)
    requires forall l | l in lines :: Parses(l)
    ensures Values(lines) == lines
  {
    if lines != [] {
      AllParse(lines[..|lines| - 1]);
    }
  }

  /** Replaying a mirrored ledger from any committed prefix yields all committed blocks. */
  lemma {:induction false} ReplayMirrored(p: Params, ledger: seq<Record>, committed: seq<Proposal>, k: nat)
    requires Mirrors(ledger, committed) && (forall b | b in committed :: Authentic(p, b)) && k <= |committed|
    ensures Replay(p, FileOf(ledger), StoredAll(committed[..k]), PrevHash(committed, k)) == StoredAll(committed)
    decreases |committed| - k
  {
    if k == |committed| {
      assert committed[..k] == committed;
    } else {
      var b := committed[k];
      assert LineMatches(ledger, committed, k) && b in committed;
      assert StoredAll(committed[..k + 1]) == StoredAll(committed[..k]) + [Stored(b)];
      ReplayMirrored(p, ledger, committed, k + 1);
    }
  }

  /** Recovery returns exactly the committed blocks; the snapshot path and the full replay agree. */
  lemma RecoveredIsCommitted(p: Params, s: State, snap: Option<Snapshot>)
    requires LedgerInv(p, s) && (snap == None || snap == s.snapshot)
    ensures Recovered(p, FileOf(s.ledger), snap) == StoredAll(s.committed)
    ensures Compacted(FileOf(s.ledger), |StoredAll(s.committed)|) == FileOf(s.ledger)
  {
    var file := FileOf(s.ledger);
    AllParse(file);
    if snap.Some? && UsableSnapshot(snap.value, |file|) {
      ReplayMirrored(p, s.ledger, s.committed, snap.value.height);
    } else {
      assert StoredAll(s.committed[..0]) == [];
      ReplayMirrored(p, s.ledger, s.committed, 0);
    }
  }

  lemma {:induction false} ReinstatedAllBooks(s: State, blocks: seq<Proposal>)
    requires s.committed == [] && Bookkeeping(s)
    ensures var t := ReinstatedAll(s, blocks); t.committed == blocks && Bookkeeping(t)
  {
    if blocks != [] {
      hide Bookkeeping, Reinstated;
      var init, b := blocks[..|blocks| - 1], blocks[|blocks| - 1];
      assert blocks == init + [b];
      ReinstatedAllBooks(s, init);
      ReinstatedBooks(ReinstatedAll(s, init), b);
    }
  }

  lemma ReinstatedBooks(s: State, b: Proposal)
    requires Bookkeeping(s)
    ensures Reinstated(s, b).committed == s.committed + [b] && Bookkeeping(Reinstated(s, b))
  {
    hide Nonces;
    Commit.HashesAppend(s.committed, b);
    NoncesGrow(s.committed, b);
  }

  lemma StoredBooks(bs: seq<Proposal>)
    ensures Commit.Hashes(StoredAll(bs)) == Commit.Hashes(bs) && AllNonces(StoredAll(bs)) == AllNonces(bs)
    ensures PrevHash(StoredAll(bs), |bs|) == PrevHash(bs, |bs|)
  {
    var r := StoredAll(bs);
    forall i | 0 <= i < |bs| ensures r[i].blockHash == bs[i].blockHash && r[i].txs == bs[i].txs {
      assert r[i] == Stored(bs[i]);
    }
    assert forall h :: h in Commit.Hashes(r) <==> h in Commit.Hashes(bs);
    assert forall key :: key in AllNonces(r) <==> key in AllNonces(bs);
  }

  // ------------------------------------------------------------------ any calls and restarts

  /** A call, or a restart: of the same object or of a fresh one, with or without the snapshot. */
  datatype Event = Did(call: Call) | Restart(inPlace: bool, useSnapshot: bool)

  /** A fresh node that finds the files. */
  function Reopened(s: State): State {
    InitialState.(ledger := s.ledger, snapshot := s.snapshot)
  }

  ghost function AfterEvent(p: Params, s: State, e: Event): State
    requires p.Valid()
  {
    match e
    case Did(c) => After(p, s, c)
    case Restart(inPlace, useSnapshot) =>
      Restored(p, if inPlace then s else Reopened(s), FileOf(s.ledger), if useSnapshot then s.snapshot else None)
  }

  lemma StoredMirrors(ledger: seq<Record>, committed: seq<Proposal>)
    requires Mirrors(ledger, committed)
    ensures Mirrors(ledger, StoredAll(committed))
  {
    StoredBooks(committed);
    forall i | 0 <= i < |ledger| ensures LineMatches(ledger, StoredAll(committed), i) {
      assert LineMatches(ledger, committed, i);
    }
  }

  lemma StoredSnapshot(snap: Snapshot, committed: seq<Proposal>)
    requires SnapshotMatches(snap, committed)
    ensures SnapshotMatches(snap, StoredAll(committed))
  {
    assert StoredAll(StoredAll(committed)[..snap.height]) == StoredAll(committed[..snap.height]);
  }

  lemma StoredAuthentic(p: Params, bs: seq<Proposal>)
    requires forall b | b in bs :: Authentic(p, b)
    ensures forall b | b in StoredAll(bs) :: Authentic(p, b)
  {
    forall b | b in StoredAll(bs) ensures Authentic(p, b) {
      var i :| 0 <= i < |bs| && StoredAll(bs)[i] == b;
      assert bs[i] in bs;
    }
  }

  lemma {:induction false} ReinstatedFiles(p: Params, s: State, bs: seq<Proposal>)
    requires BlocksAuthentic(p, s.blocks) && forall b | b in bs :: Authentic(p, b)
    ensures var t := ReinstatedAll(s, bs);
            BlocksAuthentic(p, t.blocks) && t.ledger == s.ledger && t.snapshot == s.snapshot
  {
    if bs != [] {
      hide BlocksAuthentic, Authentic, Reinstated;
      ReinstatedFiles(p, s, bs[..|bs| - 1]);
      ReinstatedOne(p, ReinstatedAll(s, bs[..|bs| - 1]), bs[|bs| - 1]);
    }
  }

  lemma ReinstatedOne(p: Params, s: State, b: Proposal)
    requires BlocksAuthentic(p, s.blocks) && Authentic(p, b)
    ensures var t := Reinstated(s, b); BlocksAuthentic(p, t.blocks) && t.ledger == s.ledger && t.snapshot == s.snapshot
  {
    hide Nonces;
    StoreQuiet(p, s, b);
  }

  /** A restart on intact files leaves a node whose files mirror its committed blocks again. */
  lemma RestartKeepsLedger(p: Params, s: State, base: State, snap: Option<Snapshot>)
    requires LedgerInv(p, s) && base.ledger == s.ledger && base.snapshot == s.snapshot
    requires (snap == None || snap == s.snapshot)
    ensures var t := Restored(p, base, FileOf(s.ledger), snap);
            && LedgerInv(p, t) && t.committed == StoredAll(s.committed) && t.committedHashes == s.committedHashes
            && t.seenNonces == s.seenNonces && t.lastCommittedHash == s.lastCommittedHash
            && t.ledger == s.ledger && t.snapshot == s.snapshot
  {
    hide Authentic, Mirrors, SnapshotMatches, Recovered, FileOf, StoredAll, ReinstatedAll;
    RecoveredIsCommitted(p, s, snap);
    StoredAuthentic(p, s.committed);
    ReinstatedAllBooks(Cleared(base), StoredAll(s.committed));
    ReinstatedFiles(p, Cleared(base), StoredAll(s.committed));
    StoredBooks(s.committed);
    StoredMirrors(s.ledger, s.committed);
    if s.snapshot.Some? {
      StoredSnapshot(s.snapshot.value, s.committed);
    }
    RestartBooks(s, StoredAll(s.committed), ReinstatedAll(Cleared(base), StoredAll(s.committed)));
  }

  lemma RestartBooks(s: State, bs: seq<Proposal>, t: State)
    requires Bookkeeping(s) && Bookkeeping(t) && t.committed == bs && |bs| == |s.committed|
    requires Commit.Hashes(bs) == Commit.Hashes(s.committed) && AllNonces(bs) == AllNonces(s.committed)
    requires PrevHash(bs, |bs|) == PrevHash(s.committed, |s.committed|)
    ensures t.committedHashes == s.committedHashes && t.seenNonces == s.seenNonces
    ensures t.lastCommittedHash == s.lastCommittedHash
  {
  }

  lemma EventKeepsLedger(p: Params, s: State, e: Event)
    requires p.Valid() && LedgerInv(p, s)
    ensures LedgerInv(p, AfterEvent(p, s, e))
  {
    hide LedgerInv, After, Restored, FileOf;
    match e
    case Did(c) => AfterKeepsLedger(p, s, c);
    case Restart(inPlace, useSnapshot) =>
      RestartKeepsLedger(p, s, if inPlace then s else Reopened(s), if useSnapshot then s.snapshot else None);
  }

  ghost predicate EventAt(p: Params, states: seq<State>, events: seq<Event>, i: nat)
    requires p.Valid() && i < |events| && i + 1 < |states|
  {
    states[i + 1] == AfterEvent(p, states[i], events[i])
  }

  /** Every state a node can be brought to by any calls and restarts whatever. */
  ghost predicate NodeLife(p: Params, states: seq<State>, events: seq<Event>)
    requires p.Valid()
  {
    && |states| == |events| + 1 && states[0] == InitialState
    && forall i | 0 <= i < |events| :: EventAt(p, states, events, i)
  }

  lemma {:induction false} LifeKeepsLedger(p: Params, states: seq<State>, events: seq<Event>, i: nat)
    requires p.Valid() && NodeLife(p, states, events) && i < |states|
    ensures LedgerInv(p, states[i])
  {
    if i > 0 {
      hide LedgerInv, AfterEvent;
      LifeKeepsLedger(p, states, events, i - 1);
      assert EventAt(p, states, events, i - 1);
      EventKeepsLedger(p, states[i - 1], events[i - 1]);
    }
  }

  /** Nothing committed before is missing or has moved. */
  predicate StillCommitted(before: seq<Proposal>, after: seq<Proposal>) {
    StoredAll(before) <= StoredAll(after)
  }

  lemma StillReflexive(a: seq<Proposal>)
    ensures StillCommitted(a, a)
  {
  }

  lemma StillTransitive(a: seq<Proposal>, b: seq<Proposal>, c: seq<Proposal>)
    requires StillCommitted(a, b) && StillCommitted(b, c)
    ensures StillCommitted(a, c)
  {
  }

  /** Blocks once committed stay committed through calls and restarts; at most the certificates they
    travelled with are lost. */
  lemma {:induction false} CommitsSurvive(p: Params, states: seq<State>, events: seq<Event>, i: nat, j: nat)
    requires p.Valid() && NodeLife(p, states, events) && i <= j < |states|
    ensures StillCommitted(states[i].committed, states[j].committed)
    decreases j
  {
    hide *;
    if i == j {
      StillReflexive(states[i].committed);
    } else {
      CommitsSurvive(p, states, events, i, j - 1);
      LifeKeepsLedger(p, states, events, j - 1);
      NextState(p, states, events, j - 1);
      EventKeepsCommits(p, states[j - 1], events[j - 1]);
      StillTransitive(states[i].committed, states[j - 1].committed, states[j].committed);
    }
  }

  lemma NextState(p: Params, states: seq<State>, events: seq<Event>, k: nat)
    requires p.Valid() && NodeLife(p, states, events) && k + 1 < |states|
    ensures |states| == |events| + 1 && states[k + 1] == AfterEvent(p, states[k], events[k])
  {
    hide AfterEvent;
    assert EventAt(p, states, events, k);
  }

  lemma EventKeepsCommits(p: Params, s: State, e: Event)
    requires p.Valid() && LedgerInv(p, s)
    ensures StillCommitted(s.committed, AfterEvent(p, s, e).committed)
  {
    hide LedgerInv, After, Restored, FileOf;
    match e
    case Did(c) =>
      CallKeepsCommits(p, s, c);
      StoredPrefix(s.committed, After(p, s, c).committed);
    case Restart(inPlace, useSnapshot) =>
      RestartKeepsLedger(p, s, if inPlace then s else Reopened(s), if useSnapshot then s.snapshot else None);
      assert StoredAll(StoredAll(s.committed)) == StoredAll(s.committed);
  }

  lemma StoredPrefix(a: seq<Proposal>, b: seq<Proposal>)
    requires a <= b
    ensures StoredAll(a) <= StoredAll(b)
  {
  }

  lemma CallKeepsCommits(p: Params, s: State, c: Call)
    requires p.Valid()
    ensures s.committed <= After(p, s, c).committed
  {
    if c.CommitCheck? {
      OnlyGrows(s, SortByView(Candidates(s, s.blockOrder)));
    } else {
      hide After, BlocksAuthentic;
      AfterQuiet(p, s, c);
    }
  }

  lemma {:induction false} OnlyGrows(s: State, bs: seq<Proposal>)
    ensures s.committed <= CommitAll(s, bs).committed
  {
    if bs != [] {
      OnlyGrows(s, bs[..|bs| - 1]);
    }
  }

  /** The recovery theorem: whatever calls and earlier restarts a node went through, restarting a fresh node
    on the files it wrote, with or without using the snapshot, gives back the same committed blocks (without
    the certificates they travelled with), hashes, nonces, height and last hash. */
  lemma RestartRestoresCommits(p: Params, states: seq<State>, events: seq<Event>, i: nat, snap: Option<Snapshot>)
    requires p.Valid() && NodeLife(p, states, events) && i < |states|
    requires snap == None || snap == states[i].snapshot
    ensures var s, t := states[i], Restored(p, Reopened(states[i]), FileOf(states[i].ledger), snap);
            && t.committed == StoredAll(s.committed) && t.committedHashes == s.committedHashes
            && t.seenNonces == s.seenNonces && t.lastCommittedHash == s.lastCommittedHash
  {
    hide LedgerInv, Restored, FileOf;
    LifeKeepsLedger(p, states, events, i);
    RestartKeepsLedger(p, states[i], Reopened(states[i]), snap);
  }

  /** What a restart does not bring back: votes and the lock are gone, so the views a node has voted
    in are open to it again. Agreement is claimed for runs without restarts only. */
  lemma {:induction false} RestartForgetsVotes(p: Params, s: State, lines: seq<Line>, snap: Option<Snapshot>)
    ensures Restored(p, s, lines, snap).votedViews == {} && Restored(p, s, lines, snap).lock.None?
  {
    ReinstatedKeepsNoVotes(Cleared(s), Recovered(p, lines, snap));
  }

  lemma {:induction false} ReinstatedKeepsNoVotes(s: State, blocks: seq<Proposal>)
    ensures ReinstatedAll(s, blocks).votedViews == s.votedViews && ReinstatedAll(s, blocks).lock == s.lock
  {
    if blocks != [] {
      ReinstatedKeepsNoVotes(s, blocks[..|blocks| - 1]);
    }
  }

  // ------------------------------------------------------------------ damaged files

  function PrevRecordHash(values: seq<Line>, i: nat): Hash
    requires i <= |values|
  {
    if i == 0 || !values[i - 1].Written? then Genesis else values[i - 1].record.block.blockHash
  }

  /** The first k records form a chain from genesis. */
  predicate ValidPrefix(p: Params, values: seq<Line>, k: nat) {
    k <= |values| && forall i | 0 <= i < k :: GoodRecord(p, values[i], i, PrevRecordHash(values, i))
  }

  /** The blocks of the first records, as many as there are blocks. */
  predicate BlocksAt(values: seq<Line>, blocks: seq<Proposal>) {
    |blocks| <= |values| && forall i | 0 <= i < |blocks| :: values[i].Written? && blocks[i] == values[i].record.block
  }

  ghost predicate Longest(p: Params, values: seq<Line>, r: seq<Proposal>) {
    ValidPrefix(p, values, |r|) && BlocksAt(values, r) && forall k: nat | ValidPrefix(p, values, k) :: k <= |r|
  }

  lemma PrefixGrows(p: Params, values: seq<Line>, n: nat)
    requires ValidPrefix(p, values, n) && n < |values| && GoodRecord(p, values[n], n, PrevRecordHash(values, n))
    ensures ValidPrefix(p, values, n + 1) && values[n].Written?
  {
  }

  lemma PrefixEnds(p: Params, values: seq<Line>, n: nat)
    requires n == |values| || (n < |values| && !GoodRecord(p, values[n], n, PrevRecordHash(values, n)))
    ensures forall k: nat | ValidPrefix(p, values, k) :: k <= n
  {
    hide GoodRecord;
  }

  lemma {:induction false} ReplayIsLongest(p: Params, values: seq<Line>, blocks: seq<Proposal>)
    requires ValidPrefix(p, values, |blocks|) && BlocksAt(values, blocks)
    ensures Longest(p, values, Replay(p, values, blocks, PrevRecordHash(values, |blocks|)))
    decreases |values| - |blocks|
  {
    hide GoodRecord, ValidPrefix;
    var n := |blocks|;
    if n < |values| && GoodRecord(p, values[n], n, PrevRecordHash(values, n)) {
      PrefixGrows(p, values, n);
      ReplayIsLongest(p, values, blocks + [values[n].record.block]);
    } else {
      PrefixEnds(p, values, n);
    }
  }

  /** On any file, damaged in any way, full replay returns the longest valid prefix. */
  lemma RecoveredIsLongestPrefix(p: Params, lines: seq<Line>)
    ensures Longest(p, Values(lines), Recovered(p, lines, None))
  {
    ReplayIsLongest(p, Values(lines), []);
  }

  lemma LongestIsUnique(p: Params, values: seq<Line>, r: seq<Proposal>, r': seq<Proposal>)
    requires Longest(p, values, r) && ValidPrefix(p, values, |r'|) && BlocksAt(values, r')
    requires forall k: nat | ValidPrefix(p, values, k) :: k <= |r'|
    ensures r == r'
  {
    hide ValidPrefix;
  }

  /** Restarting again on the file the first restart left gives the same blocks and cuts nothing. */
  lemma SecondRestartAgrees(p: Params, lines: seq<Line>)
    ensures var r := Recovered(p, lines, None);
            var file := Compacted(lines, |r|);
            Recovered(p, file, None) == r && Compacted(file, |r|) == file
  {
    hide ValidPrefix, Replay;
    var values, r := Values(lines), Recovered(p, lines, None);
    RecoveredIsLongestPrefix(p, lines);
    if |r| < |values| {
      var file := values[..|r|];
      AllParse(file);
      RecoveredIsLongestPrefix(p, file);
      var r' := Recovered(p, file, None);
      PrefixStaysValid(p, values, |r|);
      assert r' == r;
    }
  }

  lemma PrefixStaysValid(p: Params, values: seq<Line>, k: nat)
    requires ValidPrefix(p, values, k)
    ensures ValidPrefix(p, values[..k], k)
    ensures forall j: nat | ValidPrefix(p, values[..k], j) :: j <= k
  {
    hide GoodRecord;
    var file := values[..k];
    forall i | 0 <= i < k ensures GoodRecord(p, file[i], i, PrevRecordHash(file, i)) {
      assert PrevRecordHash(file, i) == PrevRecordHash(values, i);
    }
  }

  /** Tearing one line of a node's ledger costs exactly the blocks from that line on, even though the
    later lines are intact: their heights no longer fit. */
  lemma TornLineTruncates(p: Params, s: State, j: nat)
    requires LedgerInv(p, s) && j < |s.ledger|
    ensures Recovered(p, FileOf(s.ledger)[j := Torn], None) == StoredAll(s.committed[..j])
  {
    hide Recovered, Values, FileOf, ValidPrefix, GoodRecord, Bookkeeping, BlocksAuthentic, SnapshotMatches, Authentic,
         Mirrors, StoredAll;
    MirrorsLength(s.ledger, s.committed);
    var lines := FileOf(s.ledger)[j := Torn];
    var values, r := Values(lines), StoredAll(s.committed[..j]);
    TornValues(s.ledger, j);
    BeforeTearIsValid(p, s.ledger, s.committed, values, j);
    AfterTearIsNot(p, s.ledger, s.committed, values, j);
    PrefixEnds(p, values, j);
    RecoveredIsLongestPrefix(p, lines);
    LongestIsUnique(p, values, Recovered(p, lines, None), r);
  }

  lemma MirrorsLength(ledger: seq<Record>, committed: seq<Proposal>)
    requires Mirrors(ledger, committed)
    ensures |ledger| == |committed|
  {
  }

  lemma TornValues(ledger: seq<Record>, j: nat)
    requires j < |ledger|
    ensures Values(FileOf(ledger)[j := Torn]) == FileOf(ledger)[..j] + FileOf(ledger)[j + 1..]
  {
    var before, after := FileOf(ledger)[..j], FileOf(ledger)[j + 1..];
    assert FileOf(ledger)[j := Torn] == before + [Torn] + after;
    AllParse(before);
    AllParse(after);
    ValuesConcat(before, [Torn]);
    ValuesConcat(before + [Torn], after);
    assert [Torn][..0] == [] && Values([Torn]) == [];
    assert before + [] == before;
  }

  lemma BeforeTearIsValid(p: Params, ledger: seq<Record>, committed: seq<Proposal>, values: seq<Line>, j: nat)
    requires Mirrors(ledger, committed) && (forall b | b in committed :: Authentic(p, b)) && j < |ledger|
    requires values == FileOf(ledger)[..j] + FileOf(ledger)[j + 1..]
    ensures |values| == |ledger| - 1 && ValidPrefix(p, values, j) && BlocksAt(values, StoredAll(committed[..j]))
  {
    forall i | 0 <= i < j
      ensures GoodRecord(p, values[i], i, PrevRecordHash(values, i)) && values[i].record.block == Stored(committed[i])
    {
      assert values[i] == Written(ledger[i]);
      assert LineMatches(ledger, committed, i) && committed[i] in committed;
      if i > 0 {
        assert LineMatches(ledger, committed, i - 1) && values[i - 1] == Written(ledger[i - 1]);
      }
    }
  }

  lemma AfterTearIsNot(p: Params, ledger: seq<Record>, committed: seq<Proposal>, values: seq<Line>, j: nat)
    requires Mirrors(ledger, committed) && j < |ledger|
    requires values == FileOf(ledger)[..j] + FileOf(ledger)[j + 1..]
    ensures j < |values| ==> !GoodRecord(p, values[j], j, PrevRecordHash(values, j))
  {
    if j < |values| {
      assert values[j] == Written(ledger[j + 1]) && LineMatches(ledger, committed, j + 1);
    }
  }

  // ------------------------------------------------------------------ damage and the snapshot

  /** The lines that are left to read when line j of a mirrored ledger is torn. */
  predicate IsTorn(ledger: seq<Record>, j: nat, values: seq<Line>) {
    j < |ledger| && values == FileOf(ledger)[..j] + FileOf(ledger)[j + 1..]
  }

  /** Replay from any prefix before the tear stops at it. */
  lemma {:induction false} ReplayToTear(p: Params, ledger: seq<Record>, committed: seq<Proposal>, values: seq<Line>,
                                        j: nat, k: nat)
    requires Mirrors(ledger, committed)
    requires (forall b | b in committed :: Authentic(p, b)) && IsTorn(ledger, j, values) && k <= j
    ensures Replay(p, values, StoredAll(committed[..k]), PrevHash(committed, k)) == StoredAll(committed[..j])
    decreases j - k
  {
    hide GoodRecord, Authentic;
    if k == j {
      AfterTearIsNot(p, ledger, committed, values, j);
      TornStops(p, ledger, committed, values, j, k);
    } else {
      GoodBeforeTear(p, ledger, committed, values, j, k);
      assert StoredAll(committed[..k + 1]) == StoredAll(committed[..k]) + [Stored(committed[k])];
      ReplayToTear(p, ledger, committed, values, j, k + 1);
    }
  }

  lemma GoodBeforeTear(p: Params, ledger: seq<Record>, committed: seq<Proposal>, values: seq<Line>, j: nat, k: nat)
    requires Mirrors(ledger, committed)
    requires (forall b | b in committed :: Authentic(p, b)) && IsTorn(ledger, j, values) && k < j
    ensures k < |values| && k < |committed| && GoodRecord(p, values[k], k, PrevHash(committed, k))
    ensures values[k].record.block == Stored(committed[k])
  {
    assert LineMatches(ledger, committed, k) && committed[k] in committed && values[k] == Written(ledger[k]);
  }

  /** From the tear on no record has the height its place asks for. */
  lemma TornStops(p: Params, ledger: seq<Record>, committed: seq<Proposal>, values: seq<Line>, j: nat, k: nat)
    requires Mirrors(ledger, committed) && IsTorn(ledger, j, values) && j <= k <= |committed|
    ensures Replay(p, values, StoredAll(committed[..k]), PrevHash(committed, k)) == StoredAll(committed[..k])
  {
    if k < |values| {
      assert values[k] == Written(ledger[k + 1]) && LineMatches(ledger, committed, k + 1);
    }
  }

  /** Does the snapshot still help when one line of the ledger is torn? */
  predicate StillUsable(s: State) {
    s.snapshot.Some? && s.ledger != [] && UsableSnapshot(s.snapshot.value, |s.ledger| - 1)
  }

  /** What a restart with the snapshot makes of a ledger with one torn line: a usable snapshot that reaches
    beyond the tear saves the blocks it holds; otherwise everything from the tear on is lost as without it. */
  lemma SnapshotOverTear(p: Params, s: State, j: nat)
    requires LedgerInv(p, s) && j < |s.ledger|
    ensures Recovered(p, FileOf(s.ledger)[j := Torn], s.snapshot) ==
            StoredAll(s.committed[..if StillUsable(s) && j < s.snapshot.value.height then s.snapshot.value.height else j])
  {
    hide UsableSnapshot, Values, Bookkeeping, BlocksAuthentic, Authentic, StoredAll, FileOf, Mirrors, Replay;
    var lines := FileOf(s.ledger)[j := Torn];
    MirrorsLength(s.ledger, s.committed);
    TornValues(s.ledger, j);
    var values := Values(lines);
    assert IsTorn(s.ledger, j, values) && |values| == |s.ledger| - 1;
    if StillUsable(s) {
      var k := s.snapshot.value.height;
      assert k > 0 && k <= |s.committed|;
      if j < k {
        TornStops(p, s.ledger, s.committed, values, j, k);
      } else {
        ReplayToTear(p, s.ledger, s.committed, values, j, k);
      }
    } else {
      assert StoredAll(s.committed[..0]) == [];
      ReplayToTear(p, s.ledger, s.committed, values, j, 0);
    }
  }

  lemma ValidInPart(p: Params, values: seq<Line>, m: nat, k: nat)
    requires ValidPrefix(p, values, k) && k <= m <= |values|
    ensures ValidPrefix(p, values[..m], k)
  {
    hide GoodRecord;
    forall i | 0 <= i < k ensures GoodRecord(p, values[..m][i], i, PrevRecordHash(values[..m], i)) {
      assert PrevRecordHash(values[..m], i) == PrevRecordHash(values, i);
    }
  }

  /** The file such a restart leaves, rewritten or not, is no consistent prefix: its records still have the gap,
    and the blocks from the tear on are in the snapshot only. */
  lemma GapStays(p: Params, s: State, j: nat)
    requires LedgerInv(p, s) && j < |s.ledger| && StillUsable(s) && j < s.snapshot.value.height
    ensures Recovered(p, Compacted(FileOf(s.ledger)[j := Torn], s.snapshot.value.height), None) == StoredAll(s.committed[..j])
  {
    hide Recovered, Values, FileOf, ValidPrefix, GoodRecord, Bookkeeping, BlocksAuthentic, Authentic, Mirrors,
         StoredAll, UsableSnapshot, SnapshotMatches;
    var lines, k := FileOf(s.ledger)[j := Torn], s.snapshot.value.height;
    UsableBound(s.snapshot.value, |s.ledger| - 1);
    MirrorsLength(s.ledger, s.committed);
    TornValues(s.ledger, j);
    var values := Values(lines);
    if k < |values| {
      AllParse(values[..k]);
      TearLimits(p, s.ledger, s.committed, values, j, k, values[..k]);
    } else {
      assert values[..k] == values;
      TearLimits(p, s.ledger, s.committed, values, j, k, lines);
    }
  }

  lemma UsableBound(snap: Snapshot, n: nat)
    requires UsableSnapshot(snap, n)
    ensures snap.height <= n
  {
  }

  /** A file that reads as the first k lines behind a tear below k recovers to the tear. */
  lemma TearLimits(p: Params, ledger: seq<Record>, committed: seq<Proposal>, values: seq<Line>, j: nat, k: nat,
                   file: seq<Line>)
    requires Mirrors(ledger, committed) && (forall b | b in committed :: Authentic(p, b)) && IsTorn(ledger, j, values)
    requires j < k <= |values| && Values(file) == values[..k]
    ensures Recovered(p, file, None) == StoredAll(committed[..j])
  {
    hide Recovered, Values, FileOf, ValidPrefix, GoodRecord, Authentic, Mirrors, StoredAll;
    var part := values[..k];
    MirrorsLength(ledger, committed);
    BeforeTearIsValid(p, ledger, committed, values, j);
    AfterTearIsNot(p, ledger, committed, values, j);
    ValidInPart(p, values, k, j);
    assert part[j] == values[j] && PrevRecordHash(part, j) == PrevRecordHash(values, j);
    PrefixEnds(p, part, j);
    RecoveredIsLongestPrefix(p, file);
    LongestIsUnique(p, part, Recovered(p, file, None), StoredAll(committed[..j]));
  }

  // ------------------------------------------------------------------ appending after a crash

  /** The file as bytes lie: whether its last line still lacks the newline. */
  datatype File = File(lines: seq<Line>, unterminated: bool)

  /** An appended record starts right after the last byte: behind an unterminated line it becomes
    part of that line, and the two together are JSON only if the line was blank. */
  function Append(file: File, record: Record): File {
    if file.unterminated && file.lines != []
    then
      var last := |file.lines| - 1;
      File(file.lines[..last] + [if file.lines[last].Blank? then Written(record) else Torn], false)
    else File(file.lines + [Written(record)], false)
  }

  /** What a restart leaves on disk: a rewritten file is terminated, an accepted one is untouched. */
  function Restarted(p: Params, file: File): File {
    var recovered := |Recovered(p, file.lines, None)|;
    File(Compacted(file.lines, recovered), file.unterminated && recovered == |Values(file.lines)|)
  }

  predicate EndsClean(file: File) {
    !file.unterminated || file.lines == [] || file.lines[|file.lines| - 1].Blank?
  }

  /** The next record after the recovered blocks. */
  function NextRecord(r: seq<Proposal>, b: Proposal): Record {
    Record(|r|, Stored(b), PrevHash(r, |r|))
  }

  lemma GoodAppend(p: Params, values: seq<Line>, b: Proposal)
    requires Authentic(p, b)
    requires var r := Replay(p, values, [], Genesis); |r| == |values|
    ensures var r := Replay(p, values, [], Genesis);
            Replay(p, values + [Written(NextRecord(r, b))], [], Genesis) == r + [Stored(b)]
  {
    hide Replay, GoodRecord, Authentic, ValidPrefix;
    var r := Replay(p, values, [], Genesis);
    var more := values + [Written(NextRecord(r, b))];
    NothingValid(p, values);
    NothingValid(p, more);
    ReplayIsLongest(p, values, []);
    ReplayIsLongest(p, more, []);
    LongerStaysValid(p, values, r, b);
    PrefixEnds(p, more, |more|);
    LongestIsUnique(p, more, Replay(p, more, [], Genesis), r + [Stored(b)]);
  }

  lemma NothingValid(p: Params, values: seq<Line>)
    ensures ValidPrefix(p, values, 0)
  {
  }

  lemma LongerStaysValid(p: Params, values: seq<Line>, r: seq<Proposal>, b: Proposal)
    requires Authentic(p, b) && |r| == |values| && ValidPrefix(p, values, |r|) && BlocksAt(values, r)
    ensures ValidPrefix(p, values + [Written(NextRecord(r, b))], |r| + 1)
  {
    hide GoodRecord, Authentic;
    var more := values + [Written(NextRecord(r, b))];
    GoodNext(p, r, b);
    forall i | 0 <= i < |values| ensures GoodRecord(p, more[i], i, PrevRecordHash(more, i)) {
      assert PrevRecordHash(more, i) == PrevRecordHash(values, i);
    }
    assert PrevRecordHash(more, |r|) == PrevHash(r, |r|);
  }

  lemma GoodNext(p: Params, r: seq<Proposal>, b: Proposal)
    requires Authentic(p, b)
    ensures GoodRecord(p, Written(NextRecord(r, b)), |r|, PrevHash(r, |r|))
  {
  }

  /** The blocks committed after a restart that recovered r. */
  function AppendAll(file: File, r: seq<Proposal>, bs: seq<Proposal>): File
    decreases |bs|
  {
    if bs == [] then file else AppendAll(Append(file, NextRecord(r, bs[0])), r + [Stored(bs[0])], bs[1..])
  }

  /** Blocks committed after a restart survive the next restart exactly when the first restart had to cut
    the file back, or the file it found ended cleanly. Otherwise the first new record joins the unterminated
    line and all are lost with it. */
  lemma AppendAfterRestart(p: Params, file: File, bs: seq<Proposal>)
    requires bs != [] && forall b | b in bs :: Authentic(p, b)
    ensures var r := Recovered(p, file.lines, None);
            var after := AppendAll(Restarted(p, file), r, bs);
            (Recovered(p, after.lines, None) == r + StoredAll(bs)) <==>
              (|r| < |Values(file.lines)| || EndsClean(file))
  {
    hide Recovered, Values, Authentic, NextRecord, AppendAll, Append;
    var values, r := Values(file.lines), Recovered(p, file.lines, None);
    NotLonger(p, file.lines);
    LeftRecovers(p, file);
    var left := Restarted(p, file);
    if left.unterminated && left.lines != [] && !left.lines[|left.lines| - 1].Blank? {
      AllLost(p, left, r, bs);
    } else {
      AllKept(p, left, r, bs);
    }
  }

  lemma {:induction false} AllKept(p: Params, left: File, r: seq<Proposal>, bs: seq<Proposal>)
    requires (forall b | b in bs :: Authentic(p, b)) && Recovered(p, left.lines, None) == r && |Values(left.lines)| == |r|
    requires EndsClean(left)
    ensures Recovered(p, AppendAll(left, r, bs).lines, None) == r + StoredAll(bs)
    decreases |bs|
  {
    hide Recovered, Values, Authentic, NextRecord;
    if bs == [] {
      assert r + StoredAll(bs) == r;
    } else {
      var b := bs[0];
      OneKept(p, left, r, b);
      AllKept(p, Append(left, NextRecord(r, b)), r + [Stored(b)], bs[1..]);
      assert r + [Stored(b)] + StoredAll(bs[1..]) == r + StoredAll(bs);
    }
  }

  lemma OneKept(p: Params, left: File, r: seq<Proposal>, b: Proposal)
    requires Authentic(p, b) && Recovered(p, left.lines, None) == r && |Values(left.lines)| == |r| && EndsClean(left)
    ensures var after := Append(left, NextRecord(r, b));
            && Recovered(p, after.lines, None) == r + [Stored(b)] && |Values(after.lines)| == |r| + 1 && EndsClean(after)
  {
    hide Recovered, Authentic, NextRecord, Parses;
    AppendedValues(left, NextRecord(r, b));
    if left.unterminated && left.lines != [] {
      JoinsLastLine(p, left, r, b);
    } else {
      StartsNewLine(p, left, r, b);
    }
  }

  /** Whatever is appended is at most one more line to read, and none behind an unterminated one. */
  lemma AppendedValues(file: File, record: Record)
    ensures var after := Append(file, record);
            && !after.unterminated && |Values(after.lines)| <= |Values(file.lines)| + 1
            && (EndsClean(file) ==> |Values(after.lines)| == |Values(file.lines)| + 1)
            && (!EndsClean(file) ==> |Values(after.lines)| <= |Values(file.lines)|)
  {
    hide Values;
    if file.unterminated && file.lines != [] {
      var last := |file.lines| - 1;
      assert file.lines == file.lines[..last] + [file.lines[last]];
      ValuesPush(file.lines[..last], file.lines[last]);
      ValuesPush(file.lines[..last], if file.lines[last].Blank? then Written(record) else Torn);
    } else {
      ValuesPush(file.lines, Written(record));
    }
  }

  lemma ValuesPush(lines: seq<Line>, last: Line)
    ensures Values(lines + [last]) == Values(lines) + if Parses(last) then [last] else []
  {
    assert (lines + [last])[..|lines|] == lines;
  }

  lemma {:induction false} AppendAllValues(file: File, r: seq<Proposal>, bs: seq<Proposal>)
    ensures |Values(AppendAll(file, r, bs).lines)| <= |Values(file.lines)| + |bs|
    decreases |bs|
  {
    hide Values, NextRecord, Append;
    if bs != [] {
      AppendedValues(file, NextRecord(r, bs[0]));
      AppendAllValues(Append(file, NextRecord(r, bs[0])), r + [Stored(bs[0])], bs[1..]);
    }
  }

  lemma AllLost(p: Params, left: File, r: seq<Proposal>, bs: seq<Proposal>)
    requires bs != [] && |Values(left.lines)| == |r| && !EndsClean(left)
    ensures Recovered(p, AppendAll(left, r, bs).lines, None) != r + StoredAll(bs)
  {
    hide Values, NextRecord, Append, Recovered;
    var first := Append(left, NextRecord(r, bs[0]));
    AppendedValues(left, NextRecord(r, bs[0]));
    AppendAllValues(first, r + [Stored(bs[0])], bs[1..]);
    NotLonger(p, AppendAll(left, r, bs).lines);
  }

  lemma NotLonger(p: Params, lines: seq<Line>)
    ensures |Recovered(p, lines, None)| <= |Values(lines)|
  {
    hide ValidPrefix, Recovered;
    RecoveredIsLongestPrefix(p, lines);
  }

  /** A restart leaves a file that reads as exactly the recovered records. */
  lemma LeftRecovers(p: Params, file: File)
    ensures var r, left := Recovered(p, file.lines, None), Restarted(p, file);
            Recovered(p, left.lines, None) == r && |Values(left.lines)| == |r|
  {
    SecondRestartAgrees(p, file.lines);
    LeftValues(p, file);
    NotLonger(p, file.lines);
    hide Recovered, Values;
  }

  lemma StartsNewLine(p: Params, left: File, r: seq<Proposal>, b: Proposal)
    requires Authentic(p, b) && Recovered(p, left.lines, None) == r && |Values(left.lines)| == |r|
    requires !left.unterminated || left.lines == []
    ensures Recovered(p, Append(left, NextRecord(r, b)).lines, None) == r + [Stored(b)]
  {
    hide Replay, Authentic, NextRecord;
    assert (left.lines + [Written(NextRecord(r, b))])[..|left.lines|] == left.lines;
    GoodAppend(p, Values(left.lines), b);
  }

  lemma JoinsLastLine(p: Params, left: File, r: seq<Proposal>, b: Proposal)
    requires Authentic(p, b) && Recovered(p, left.lines, None) == r && |Values(left.lines)| == |r|
    requires left.unterminated && left.lines != []
    ensures Recovered(p, Append(left, NextRecord(r, b)).lines, None) == r + [Stored(b)] <==> left.lines[|left.lines| - 1].Blank?
  {
    hide Replay, Authentic, NextRecord;
    var init, last := left.lines[..|left.lines| - 1], left.lines[|left.lines| - 1];
    var record := NextRecord(r, b);
    assert left.lines == init + [last];
    var more := Append(left, record).lines;
    assert more == init + [if last.Blank? then Written(record) else Torn] && more[..|init|] == init;
    if last.Blank? {
      GoodAppend(p, Values(left.lines), b);
    } else {
      NotLonger(p, more);
    }
  }

  /** A restart leaves exactly the recovered records to be read. */
  lemma LeftValues(p: Params, file: File)
    ensures var r := Recovered(p, file.lines, None); Values(Restarted(p, file).lines) == Values(file.lines)[..|r|]
  {
    RecoveredIsLongestPrefix(p, file.lines);
    var values, r := Values(file.lines), Recovered(p, file.lines, None);
    if |r| < |values| {
      AllParse(values[..|r|]);
    } else {
      assert values[..|r|] == values;
    }
  }

  lemma {:induction false} ValuesConcat(a: seq<Line>, b: seq<Line>)
    ensures Values(a + b) == Values(a) + Values(b)
  {
    if b == [] {
      assert a + b == a;
    } else {
      ValuesConcat(a, b[..|b| - 1]);
      assert (a + b)[..|a + b| - 1] == a + b[..|b| - 1];
    }
  }
}
