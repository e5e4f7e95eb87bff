/** The state of one consensus node as a value, and what each operation makes of it
  (phase5/vap-to.mjs, createNode). ConsensusNode.dfy holds the object whose methods update these
  fields in place and is verified against the functions here.

  Not kept: `qcByView` (written, never read), clocks and key material. */
module NodeState {
  import opened Wrappers
  import opened Endorse
  import opened Blocks
  import Quorum

  /** What a node is constructed with. The roster is sorted by node id. */
  datatype Params = Params(me: NodeId, roster: seq<NodeId>, keys: map<NodeId, Key>, n: nat, f: nat) {
    predicate Valid() {
      && n > 0 && |roster| == n && 2 * f + 1 <= n
      && me in keys
      && (forall i | 0 <= i < |roster| :: roster[i] in keys)
    }

    function Threshold(): nat {
      Quorum.Threshold(n, f)
    }

    function LeaderOf(view: nat): NodeId
      requires Valid()
    {
      roster[view % n]
    }
  }

  datatype Lock = Lock(blockHash: Hash, view: Option<int>)

  datatype ViewChange = ViewChange(nodeId: NodeId, view: int, highestQC: Option<QC>, sig: Signature<Message>)

  datatype NewView = NewView(view: int, anchorQC: Option<QC>)

  /** One ledger line; the block is stored without the certificate it carried. */
  datatype Record = Record(height: int, block: Proposal, prevHash: Hash)

  datatype Snapshot = Snapshot(height: int, lastCommittedHash: Hash, blocks: seq<Proposal>)

  datatype State = State(
    view: int,
    highestQC: Option<QC>,
    votedViews: set<int>,
    blocks: map<Hash, Proposal>,
    blockOrder: seq<Hash>,              // insertion order of `blocks`
    qcByBlockHash: map<Hash, QC>,
    childIndex: map<Hash, Hash>,
    activeProposal: Option<Proposal>,
    lock: Option<Lock>,
    viewChanges: map<NodeId, map<int, ViewChange>>,
    viewChangeOrder: seq<NodeId>,       // insertion order of `viewChanges`
    newViews: map<int, NewView>,
    committed: seq<Proposal>,
    committedHashes: set<Hash>,
    lastCommittedHash: Hash,
    seenNonces: set<string>,
    expelled: set<NodeId>,
    pendingTxs: seq<Tx>,
    pendingNonces: set<string>,
    ledger: seq<Record>,
    snapshot: Option<Snapshot>)

  const InitialState := State(
    0, None, {}, map[], [], map[], map[], None, None, map[], [], map[],
    [], {}, Genesis, {}, {}, [], {}, [], None)

  /** Why a proposal is not voted for. */
  datatype Refusal =
    | InvalidView | LeaderMismatch | LeaderExpelled | BadLeaderSignature | HashMismatch
    | StaleView | AlreadyVoted | JustifyMismatch | BadJustify | NotExtendingHighest
    | ParentNotCertified | NotExtendingLock | BadTx | AlreadyCommitted | DuplicateNonce

  function NonceKey(tx: Tx): string
    requires tx.Commit?
  {
    tx.from + ":" + tx.nonce
  }

  /** Nonces of the commit transactions in a list. */
  function Nonces(txs: seq<Tx>): set<string> {
    set i | 0 <= i < |txs| && txs[i].Commit? :: NonceKey(txs[i])
  }

  function ActiveRoster(p: Params, s: State): Roster {
    map id | id in p.keys && id !in s.expelled :: Some(p.keys[id])
  }

  ghost predicate QCVerifies(p: Params, s: State, qc: QC) {
    |ValidSigners(VoteMessage(VoteTarget(qc.view, qc.blockHash, qc.parentHash)), qc.sigs, ActiveRoster(p, s))| >= p.Threshold()
  }

  // ------------------------------------------------------------------ ancestry in the block store

  /** Every stored block is filed under its own digest. */
  predicate WellFiled(blocks: map<Hash, Proposal>) {
    forall h | h in blocks :: blocks[h].blockHash == h && h == HashBlock(blocks[h])
  }

  /** Following stored parent links from h reaches a, through views that strictly decrease and
    never fall below `floor`; the first step must start below `ceiling`. */
  predicate Walks(blocks: map<Hash, Proposal>, h: Hash, a: Hash, floor: Option<int>, ceiling: Option<int>)
    decreases h
  {
    h == a ||
    (&& h in blocks && h.Digest?
     && floor.Some? && floor.value <= h.content.view
     && (ceiling.Some? ==> h.content.view < ceiling.value)
     && Walks(blocks, h.content.parentHash, a, floor, Some(h.content.view)))
  }

  /** What the ancestry test answers; an ancestor that is not stored is below every view. */
  predicate IsDescendant(blocks: map<Hash, Proposal>, h: Hash, a: Hash) {
    a == Genesis || h == a ||
    Walks(blocks, h, a, if a in blocks then Some(blocks[a].view) else None, None)
  }

  // ------------------------------------------------------------------ proposing and voting

  function Baseline(s: State): Hash {
    if s.highestQC.Some? then s.highestQC.value.blockHash else s.lastCommittedHash
  }

  function StoreBlock(s: State, b: Proposal): State {
    s.(blocks := s.blocks[b.blockHash := b],
       blockOrder := if b.blockHash in s.blocks then s.blockOrder else s.blockOrder + [b.blockHash])
  }

  function Max(a: int, b: int): int {
    if a < b then b else a
  }

  lemma LastCounts<T>(s: seq<T>)
    requires s != []
    ensures multiset(s) == multiset(s[..|s| - 1]) + multiset{s[|s| - 1]}
  {
    assert s == s[..|s| - 1] + [s[|s| - 1]];
  }

  /** May x stand before y? */
  predicate MayPrecede(x: Tx, y: Tx) {
    !Before(CanonicalText(y), CanonicalText(x))
  }

  predicate InTextOrder(txs: seq<Tx>) {
    forall i | 0 <= i < |txs| - 1 :: MayPrecede(txs[i], txs[i + 1])
  }

  /** Transactions in the order they are packed: by their canonical text, ties in place. */
  function SortTxs(txs: seq<Tx>): (sorted: seq<Tx>)
    ensures multiset(sorted) == multiset(txs) && InTextOrder(sorted)
  {
    if txs == [] then []
    else
      LastCounts(txs);
      InsertInOrder(SortTxs(txs[..|txs| - 1]), txs[|txs| - 1]);
      InsertTx(SortTxs(txs[..|txs| - 1]), txs[|txs| - 1])
  }

  function InsertTx(sorted: seq<Tx>, tx: Tx): (r: seq<Tx>)
    ensures multiset(r) == multiset(sorted) + multiset{tx}
  {
    if sorted == [] || MayPrecede(sorted[|sorted| - 1], tx) then sorted + [tx]
    else
      LastCounts(sorted);
      InsertTx(sorted[..|sorted| - 1], tx) + [sorted[|sorted| - 1]]
  }

  lemma {:induction false} BeforeIsOneWay(a: string, b: string)
    requires Before(a, b)
    ensures !Before(b, a)
  {
    if a != [] && a[0] == b[0] {
      BeforeIsOneWay(a[1..], b[1..]);
    }
  }

  lemma OneMayPrecede(x: Tx, y: Tx)
    ensures MayPrecede(x, y) || MayPrecede(y, x)
  {
    if !MayPrecede(x, y) {
      BeforeIsOneWay(CanonicalText(y), CanonicalText(x));
    }
  }

  lemma InsertInOrder(sorted: seq<Tx>, tx: Tx)
    requires InTextOrder(sorted)
    ensures InTextOrder(InsertTx(sorted, tx))
  {
    hide MayPrecede;
    InsertKeepsOrder(sorted, tx);
  }

  lemma {:induction false} InsertKeepsOrder(sorted: seq<Tx>, tx: Tx)
    requires InTextOrder(sorted)
    ensures var r := InsertTx(sorted, tx);
            InTextOrder(r) && r != [] && (r[|r| - 1] == tx || (sorted != [] && r[|r| - 1] == sorted[|sorted| - 1]))
  {
    hide MayPrecede, InTextOrder;
    if sorted == [] || MayPrecede(sorted[|sorted| - 1], tx) {
      OrderPush(sorted, tx);
    } else {
      var init, last := sorted[..|sorted| - 1], sorted[|sorted| - 1];
      OrderPop(sorted);
      OneMayPrecede(last, tx);
      InsertKeepsOrder(init, tx);
      OrderPush(InsertTx(init, tx), last);
    }
  }

  lemma OrderPop(txs: seq<Tx>)
    requires InTextOrder(txs) && txs != []
    ensures InTextOrder(txs[..|txs| - 1]) && (|txs| > 1 ==> MayPrecede(txs[|txs| - 2], txs[|txs| - 1]))
  {
    hide MayPrecede;
    assert |txs| > 1 ==> MayPrecede(txs[|txs| - 2], txs[|txs| - 2 + 1]);
  }

  lemma OrderPush(txs: seq<Tx>, tx: Tx)
    requires InTextOrder(txs) && (txs == [] || MayPrecede(txs[|txs| - 1], tx))
    ensures InTextOrder(txs + [tx])
  {
    hide MayPrecede;
    var more := txs + [tx];
    forall i | 0 <= i < |more| - 1 ensures MayPrecede(more[i], more[i + 1]) {
      if i < |txs| - 1 {
        assert MayPrecede(txs[i], txs[i + 1]);
      }
    }
  }

  function CanonicalText(tx: Tx): string {
    match tx
    case Commit(from, nonce) => "{from:" + from + ",nonce:" + nonce + ",type:commit}"
    case BadCommit => "{type:commit}"
    case OtherLane => "{type:}"
    case NotAnObject => "null"
  }

  predicate Before(a: string, b: string) {
    b != [] && (a == [] || a[0] < b[0] || (a[0] == b[0] && Before(a[1..], b[1..])))
  }

  datatype ProposeRefusal = BadView | NotLeader | ViewPassed | TooFewViewChanges | BadAnchor

  function ProposeRefused(p: Params, s: State, view: int): (r: Option<ProposeRefusal>)
    requires p.Valid()
    ensures r.None? ==> view >= 0
  {
    if view < 0 then Some(BadView)
    else if p.LeaderOf(view) != p.me then Some(NotLeader)
    else if view < s.view then Some(ViewPassed)
    else None
  }

  function NewProposal(p: Params, s: State, view: int): Proposal
    requires p.Valid()
  {
    var content := Content(view, p.me, Baseline(s), SortTxs(s.pendingTxs));
    var justify := if s.highestQC.Some? && s.highestQC.value.restored then None else s.highestQC;
    Proposal(view, p.me, content.parentHash, content.txs, justify,
             SignedBy(p.keys[p.me], ProposalMessage(content)), Digest(content))
  }

  function Proposed(p: Params, s: State, view: int): State
    requires p.Valid()
  {
    if ProposeRefused(p, s, view).Some? then s
    else
      var b := NewProposal(p, s, view);
      StoreBlock(s, b).(activeProposal := Some(b), view := Max(s.view, view), pendingTxs := [], pendingNonces := {})
  }

  lemma ProposedIs(p: Params, s: State, v: nat)
    requires p.Valid() && p.LeaderOf(v) == p.me && s.view <= v
    ensures var b := NewProposal(p, s, v);
            Proposed(p, s, v) == StoreBlock(s, b).(activeProposal := Some(b), view := Max(s.view, v), pendingTxs := [], pendingNonces := {})
  {
  }

  function DoubleSpend(seenNonces: set<string>, txs: seq<Tx>): Option<Refusal> {
    if txs == [] then None
    else
      var init, tx := txs[..|txs| - 1], txs[|txs| - 1];
      var earlier := DoubleSpend(seenNonces, init);
      if earlier.Some? then earlier
      else if !tx.Commit? then Some(BadTx)
      else if NonceKey(tx) in seenNonces then Some(AlreadyCommitted)
      else if NonceKey(tx) in Nonces(init) then Some(DuplicateNonce)
      else None
  }

  /** Checks that do not touch the state. */
  ghost function Admission(p: Params, s: State, b: Proposal): (r: Option<Refusal>)
    requires p.Valid()
    ensures r.None? ==> b.view >= s.view && b.view >= 0 && b.view !in s.votedViews && b.blockHash == HashBlock(b)
    ensures r.None? && b.justify.Some? ==> b.justify.value.blockHash == b.parentHash && QCVerifies(p, s, b.justify.value)
  {
    if b.view < 0 then Some(InvalidView)
    else if b.leader != p.LeaderOf(b.view) then Some(LeaderMismatch)
    else if b.leader in s.expelled then Some(LeaderExpelled)
    else if b.leader !in p.keys || !Verifies(ProposalMessage(ContentOf(b)), p.keys[b.leader], b.sig) then Some(BadLeaderSignature)
    else if b.blockHash != HashBlock(b) then Some(HashMismatch)
    else if b.view < s.view then Some(StaleView)
    else if b.view in s.votedViews then Some(AlreadyVoted)
    else if b.justify.Some? && b.justify.value.blockHash != b.parentHash then Some(JustifyMismatch)
    else if b.justify.Some? && !QCVerifies(p, s, b.justify.value) then Some(BadJustify)
    else None
  }

  /** A carried certificate that is not lower than the local one is adopted at once, even when the
    proposal is refused afterwards. */
  function Adopt(s: State, qc: QC): State {
    s.(highestQC := Some(qc), qcByBlockHash := s.qcByBlockHash[qc.blockHash := qc])
  }

  function AdoptJustify(s: State, b: Proposal): State {
    if b.justify.Some? && (s.highestQC.None? || b.justify.value.view >= s.highestQC.value.view)
    then Adopt(s, b.justify.value) else s
  }

  /** Checks made against the state after adoption. */
  function Extension(s: State, b: Proposal): (r: Option<Refusal>)
    ensures r.None? ==> b.parentHash == Genesis || b.parentHash in s.qcByBlockHash
    ensures r.None? && s.lock.Some? ==> IsDescendant(s.blocks, b.parentHash, s.lock.value.blockHash)
  {
    if s.highestQC.None? && s.lastCommittedHash == Genesis && b.parentHash != Genesis then Some(NotExtendingHighest)
    else if (s.highestQC.Some? || s.lastCommittedHash != Genesis) && !IsDescendant(s.blocks, b.parentHash, Baseline(s)) then Some(NotExtendingHighest)
    else if b.parentHash != Genesis && b.parentHash !in s.qcByBlockHash then Some(ParentNotCertified)
    else if s.lock.Some? && !IsDescendant(s.blocks, b.parentHash, s.lock.value.blockHash) then Some(NotExtendingLock)
    else DoubleSpend(s.seenNonces, b.txs)
  }

  ghost function SafetyRule(p: Params, s: State, b: Proposal): (State, Option<Refusal>)
    requires p.Valid()
  {
    var refusal := Admission(p, s, b);
    if refusal.Some? then (s, refusal)
    else
      var s1 := AdoptJustify(s, b);
      (s1, Extension(s1, b))
  }

  /** Voting locks the parent of the block voted for. */
  function LockFor(s: State, b: Proposal): Option<Lock> {
    if b.parentHash == Genesis then None
    else if b.justify.Some? then Some(Lock(b.parentHash, Some(b.justify.value.view)))
    else if b.parentHash in s.blocks then Some(Lock(b.parentHash, Some(s.blocks[b.parentHash].view)))
    else Some(Lock(b.parentHash, None))
  }

  function CastVote(s: State, b: Proposal): State {
    var s2 := StoreBlock(s, b);
    s2.(activeProposal := Some(b), votedViews := s.votedViews + {b.view}, view := Max(s.view, b.view), lock := LockFor(s2, b))
  }

  ghost function Voted(p: Params, s: State, b: Proposal): (State, Option<Refusal>)
    requires p.Valid()
  {
    var (s1, refusal) := SafetyRule(p, s, b);
    if refusal.Some? then (s1, refusal) else (CastVote(s1, b), None)
  }

  // ------------------------------------------------------------------ certificates and commits

  /** The certificate the votes for the active proposal add up to, if they reach the threshold. */
  ghost function CollectedQC(p: Params, s: State, votes: seq<Endorsement<Message>>): Option<QC> {
    if s.activeProposal.None? then None
    else
      var b := s.activeProposal.value;
      var target := VoteMessage(VoteTarget(b.view, b.blockHash, b.parentHash));
      if |ValidSigners(target, votes, ActiveRoster(p, s))| < p.Threshold() then None
      else Some(QC(b.view, b.blockHash, b.parentHash, Kept(target, votes, ActiveRoster(p, s)), false))
  }

  function IndexCertifiedChild(s: State, h: Hash): State {
    if h in s.blocks && s.blocks[h].blockHash in s.qcByBlockHash
    then s.(childIndex := s.childIndex[s.blocks[h].parentHash := s.blocks[h].blockHash]) else s
  }

  ghost function Collected(p: Params, s: State, votes: seq<Endorsement<Message>>): State {
    var qc := CollectedQC(p, s, votes);
    if qc.None? then s else IndexCertifiedChild(Adopt(s, qc.value), qc.value.blockHash)
  }

  function CertifiedChild(s: State, h: Hash): Option<Proposal> {
    if h in s.childIndex && s.childIndex[h] in s.blocks then Some(s.blocks[s.childIndex[h]]) else None
  }

  /** Not committed yet, certified, and so are the indexed child and grandchild. */
  predicate Committable(s: State, h: Hash) {
    && h in s.blocks && h !in s.committedHashes && h in s.qcByBlockHash
    && CertifiedChild(s, h).Some?
    && CertifiedChild(s, CertifiedChild(s, h).value.blockHash).Some?
  }

  /** Committable blocks in storage order. */
  function Candidates(s: State, order: seq<Hash>): (c: seq<Proposal>)
    ensures forall b | b in c :: exists h :: h in order && Committable(s, h) && b == s.blocks[h]
    ensures forall h | h in order && Committable(s, h) :: s.blocks[h] in c
  {
    if order == [] then []
    else
      var init, h := Candidates(s, order[..|order| - 1]), order[|order| - 1];
      assert forall x | x in order :: x in order[..|order| - 1] || x == h;
      if Committable(s, h) then init + [s.blocks[h]] else init
  }

  function InsertByView(sorted: seq<Proposal>, b: Proposal): (r: seq<Proposal>)
    ensures multiset(r) == multiset(sorted) + multiset{b}
  {
    if sorted == [] || sorted[|sorted| - 1].view <= b.view then sorted + [b]
    else
      LastCounts(sorted);
      InsertByView(sorted[..|sorted| - 1], b) + [sorted[|sorted| - 1]]
  }

  /** Stable sort by view. */
  function SortByView(bs: seq<Proposal>): (r: seq<Proposal>)
    ensures multiset(r) == multiset(bs)
  {
    if bs == [] then []
    else
      LastCounts(bs);
      InsertByView(SortByView(bs[..|bs| - 1]), bs[|bs| - 1])
  }

  const SNAPSHOT_EVERY := 100

  function Stored(b: Proposal): Proposal {
    b.(justify := None)
  }

  function StoredAll(bs: seq<Proposal>): (r: seq<Proposal>)
    ensures |r| == |bs| && forall i | 0 <= i < |r| :: r[i] == Stored(bs[i])
  {
    seq(|bs|, i requires 0 <= i < |bs| => Stored(bs[i]))
  }

  /** A snapshot of the committed prefix replaces the old one at every hundredth block. */
  function NextSnapshot(last: Option<Snapshot>, committed: seq<Proposal>): Option<Snapshot>
    requires committed != []
  {
    if |committed| % SNAPSHOT_EVERY == 0
    then Some(Snapshot(|committed|, committed[|committed| - 1].blockHash, StoredAll(committed))) else last
  }

  function Committed(s: State, b: Proposal): State {
    var committed := s.committed + [b];
    s.(committed := committed,
       committedHashes := s.committedHashes + {b.blockHash},
       lastCommittedHash := b.blockHash,
       seenNonces := s.seenNonces + Nonces(b.txs),
       ledger := s.ledger + [Record(|s.committed|, Stored(b), s.lastCommittedHash)],
       snapshot := NextSnapshot(s.snapshot, committed))
  }

  /** Commit the blocks of a list in order, skipping hashes already committed. */
  function CommitAll(s: State, bs: seq<Proposal>): State {
    if bs == [] then s
    else
      var init, b := CommitAll(s, bs[..|bs| - 1]), bs[|bs| - 1];
      if b.blockHash in init.committedHashes then init else Committed(init, b)
  }

  function CommitChecked(s: State): State {
    CommitAll(s, SortByView(Candidates(s, s.blockOrder)))
  }

  // ------------------------------------------------------------------ changing views

  function AnchorOf(qc: Option<QC>): Option<(int, Hash)> {
    if qc.Some? then Some((qc.value.view, qc.value.blockHash)) else None
  }

  function ViewChangeTarget(vc: ViewChange): Message {
    ViewChangeMessage(vc.nodeId, vc.view, AnchorOf(vc.highestQC))
  }

  function OwnViewChange(p: Params, s: State): ViewChange
    requires p.Valid()
  {
    var message := ViewChangeMessage(p.me, s.view + 1, AnchorOf(s.highestQC));
    ViewChange(p.me, s.view + 1, s.highestQC, SignedBy(p.keys[p.me], message))
  }

  function FileViewChange(s: State, vc: ViewChange): State {
    var byView := if vc.nodeId in s.viewChanges then s.viewChanges[vc.nodeId] else map[];
    s.(viewChanges := s.viewChanges[vc.nodeId := byView[vc.view := vc]],
       viewChangeOrder := if vc.nodeId in s.viewChanges then s.viewChangeOrder else s.viewChangeOrder + [vc.nodeId])
  }

  function TimedOut(p: Params, s: State): State
    requires p.Valid()
  {
    FileViewChange(s, OwnViewChange(p, s)).(view := s.view + 1)
  }

  ghost predicate AcceptsViewChange(p: Params, s: State, vc: ViewChange) {
    && vc.nodeId in p.keys && vc.nodeId !in s.expelled && vc.view >= 0
    && Verifies(ViewChangeTarget(vc), p.keys[vc.nodeId], vc.sig)
    && (vc.highestQC.Some? ==> QCVerifies(p, s, vc.highestQC.value))
  }

  ghost function ReceivedViewChange(p: Params, s: State, vc: ViewChange): State {
    if AcceptsViewChange(p, s, vc) then FileViewChange(s, vc) else s
  }

  /** The view changes on file for a view, by members not expelled, in filing order. */
  function FiledFor(s: State, view: int, order: seq<NodeId>): (vcs: seq<ViewChange>)
    ensures forall vc | vc in vcs :: exists id :: id in order && id in s.viewChanges && view in s.viewChanges[id] && vc == s.viewChanges[id][view]
  {
    if order == [] then []
    else
      var init, id := FiledFor(s, view, order[..|order| - 1]), order[|order| - 1];
      if id in s.viewChanges && view in s.viewChanges[id] && s.viewChanges[id][view].nodeId !in s.expelled
      then init + [s.viewChanges[id][view]] else init
  }

  /** The highest certificate among view changes, the first of equals; it is at least as high as
    every certificate carried. */
  function Anchor(vcs: seq<ViewChange>): (a: Option<QC>)
    ensures a.None? <==> forall vc | vc in vcs :: vc.highestQC.None?
    ensures a.Some? ==> exists vc :: vc in vcs && vc.highestQC == a
    ensures a.Some? ==> forall vc | vc in vcs && vc.highestQC.Some? :: vc.highestQC.value.view <= a.value.view
  {
    if vcs == [] then None
    else
      var init, vc := Anchor(vcs[..|vcs| - 1]), vcs[|vcs| - 1];
      assert forall x | x in vcs :: x in vcs[..|vcs| - 1] || x == vc;
      if vc.highestQC.Some? && (init.None? || vc.highestQC.value.view > init.value.view) then vc.highestQC else init
  }

  /** The new view aggregated from enough view changes, if there are enough. */
  function AggregatedNewView(p: Params, s: State, view: int): Option<NewView> {
    var filed := FiledFor(s, view, s.viewChangeOrder);
    if view < 0 || |filed| < p.Threshold() then None else Some(NewView(view, Anchor(filed)))
  }

  function Aggregated(p: Params, s: State, view: int): State {
    var nv := AggregatedNewView(p, s, view);
    if nv.None? then s else s.(newViews := s.newViews[view := nv.value])
  }

  ghost predicate RejectsAnchor(p: Params, s: State, nv: NewView) {
    && nv.anchorQC.Some?
    && (!QCVerifies(p, s, nv.anchorQC.value)
        || (s.highestQC.Some? && nv.anchorQC.value.view < s.highestQC.value.view))
  }

  ghost function AdoptedNewView(p: Params, s: State, nv: NewView): State {
    if nv.anchorQC.None? || RejectsAnchor(p, s, nv) then s else Adopt(s, nv.anchorQC.value)
  }

  ghost function ProposedNewView(p: Params, s: State, view: int): State
    requires p.Valid()
  {
    if view < 0 || p.LeaderOf(view) != p.me then s
    else
      var nv := AggregatedNewView(p, s, view);
      if nv.None? then s
      else
        var s1 := Aggregated(p, s, view);
        if RejectsAnchor(p, s1, nv.value) then s1
        else Proposed(p, AdoptedNewView(p, s1, nv.value), view)
  }

  function Expelled(s: State, id: NodeId): State {
    s.(expelled := s.expelled + {id})
  }

  /** A commit transaction enters the mempool unless its nonce is committed or pending. */
  predicate AcceptsTx(s: State, tx: Tx) {
    tx.Commit? && NonceKey(tx) !in s.seenNonces && NonceKey(tx) !in s.pendingNonces
  }

  function Submitted(s: State, tx: Tx): State {
    if AcceptsTx(s, tx) then s.(pendingTxs := s.pendingTxs + [tx], pendingNonces := s.pendingNonces + {NonceKey(tx)}) else s
  }
}
