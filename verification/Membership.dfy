/** Dynamic membership on top of the committed chain (phase6/vap-to-membership.mjs): a change in the
  block committed at height h takes effect at height h+2, an expulsion stops counting at once. A
  restart replays all changes in one batch; this must agree with applying them block by block. */
module Membership {
  import opened Wrappers
  import opened Endorse
  import Quorum

  /** A public key as text; only a usable one can be parsed. */
  datatype PublicKey = Usable(key: Key) | Unusable(text: nat)

  datatype Member = Member(nodeId: NodeId, pubKey: PublicKey)

  /** A string, or some other value with the text it turns into inside a template. */
  datatype Field = Text(text: string) | NotText(text: string)

  datatype Op =
    | Join(nodeId: NodeId, pubKey: PublicKey)
    | Slash(nodeId: NodeId)
    | Expel(nodeId: NodeId)
    | Rotate(nodeId: NodeId, newPubKey: PublicKey)
    | Report

  datatype Tx = Membership(op: Op, from: Field, nonce: Field) | OtherTx

  type Block = seq<Tx>

  datatype Change = Change(op: Op, submitHeight: nat, activateHeight: nat, applied: bool)

  datatype LogEntry =
    | Scheduled(op: Op, submitHeight: nat)
    | ExpelledNow(op: Op, height: nat)
    | Applied(op: Op, rosterSize: int, f: int, threshold: int)
    | Rejected(op: Op)

  /** The membership proper: the sorted roster, the key table, and what is derived from their size. */
  datatype Members = Members(roster: seq<Member>, peerMap: map<NodeId, PublicKey>, n: int, f: int, threshold: int)

  datatype State = State(
    members: Members, pendingChanges: seq<Change>, expelled: set<NodeId>,
    membershipNonces: set<string>, log: seq<LogEntry>, height: nat)

  // ------------------------------------------------------------------ one change

  function Insert(roster: seq<Member>, m: Member): seq<Member> {
    if roster == [] || roster[|roster| - 1].nodeId <= m.nodeId then roster + [m]
    else Insert(roster[..|roster| - 1], m) + [roster[|roster| - 1]]
  }

  /** Stable sort by node id. */
  function Sorted(roster: seq<Member>): seq<Member> {
    if roster == [] then [] else Insert(Sorted(roster[..|roster| - 1]), roster[|roster| - 1])
  }

  function Without(roster: seq<Member>, id: NodeId): seq<Member> {
    if roster == [] then []
    else
      var init, m := Without(roster[..|roster| - 1], id), roster[|roster| - 1];
      if m.nodeId == id then init else init + [m]
  }

  /** Give the first entry of the id another key. */
  function Rekeyed(roster: seq<Member>, id: NodeId, key: PublicKey): seq<Member> {
    if roster == [] then []
    else if roster[0].nodeId == id then [Member(id, key)] + roster[1..]
    else [roster[0]] + Rekeyed(roster[1..], id, key)
  }

  function Recomputed(m: Members): Members {
    var n := |m.roster|;
    m.(n := n, f := Quorum.FaultBudget(n), threshold := Quorum.RosterThreshold(n))
  }

  /** What a change does to roster and key table. */
  function Changed(m: Members, op: Op): Members {
    match op
    case Join(id, key) =>
      if id in m.peerMap then m
      else m.(roster := Sorted(m.roster + [Member(id, key)]), peerMap := m.peerMap[id := key])
    case Slash(id) => Removed(m, id)
    case Expel(id) => Removed(m, id)
    case Rotate(id, key) =>
      if id !in m.peerMap then m
      else m.(roster := Rekeyed(m.roster, id, key), peerMap := m.peerMap[id := key])
    case Report => m
  }

  function Removed(m: Members, id: NodeId): Members {
    if id !in m.peerMap then m else m.(roster := Without(m.roster, id), peerMap := m.peerMap - {id})
  }

  function AppliedEntry(m: Members, op: Op): LogEntry {
    Applied(op, m.n, m.f, m.threshold)
  }

  /** A node refuses to rotate to a key of its own that it cannot parse. */
  predicate Refuses(me: NodeId, m: Members, op: Op) {
    op.Rotate? && op.nodeId == me && me in m.peerMap && op.newPubKey.Unusable?
  }

  /** Applying a change at its activation height. */
  function ApplyLive(me: NodeId, m: Members, op: Op): (Members, LogEntry) {
    if Refuses(me, m, op) then (m, Rejected(op))
    else
      var m' := Recomputed(Changed(m, op));
      (m', AppliedEntry(m', op))
  }

  /** Applying a change while replaying: no key is parsed. */
  function ApplyReplayed(m: Members, op: Op): (Members, LogEntry) {
    var m' := Recomputed(Changed(m, op));
    (m', AppliedEntry(m', op))
  }

  /** The two agree on a change exactly unless the change is refused live although replaying it
    would alter something: the key, or quorum numbers not yet recomputed from the roster. */
  lemma OneChangeAgrees(me: NodeId, m: Members, op: Op)
    ensures ApplyLive(me, m, op).0 == ApplyReplayed(m, op).0 <==>
            !Refuses(me, m, op) || m == Recomputed(Changed(m, op))
  {
  }

  // ------------------------------------------------------------------ live: block by block

  function NonceKey(tx: Tx): string
    requires tx.Membership?
  {
    tx.from.text + ":" + tx.nonce.text
  }

  function Removal(op: Op): bool {
    op.Slash? || op.Expel?
  }

  /** A membership transaction of the block committed at the given height. */
  function Noted(s: State, tx: Tx, height: nat): State {
    if !tx.Membership? then s
    else
      var scheduled := s.(
        membershipNonces := s.membershipNonces + {NonceKey(tx)},
        pendingChanges := s.pendingChanges + [Change(tx.op, height, height + 2, false)],
        log := s.log + [Scheduled(tx.op, height)]);
      if Removal(tx.op)
      then scheduled.(expelled := s.expelled + {tx.op.nodeId}, log := scheduled.log + [ExpelledNow(tx.op, height)])
      else scheduled
  }

  function NotedAll(s: State, txs: seq<Tx>, height: nat): (t: State)
    ensures t.members == s.members && t.height == s.height
  {
    if txs == [] then s else Noted(NotedAll(s, txs[..|txs| - 1], height), txs[|txs| - 1], height)
  }

  /** Apply what has come due among the first k scheduled changes, in the order of scheduling. */
  function Due(me: NodeId, s: State, k: nat): (t: State)
    requires k <= |s.pendingChanges|
    ensures |t.pendingChanges| == |s.pendingChanges| && t.height == s.height
    ensures t.expelled == s.expelled && t.membershipNonces == s.membershipNonces
    ensures forall i | k <= i < |s.pendingChanges| :: t.pendingChanges[i] == s.pendingChanges[i]
  {
    if k == 0 then s
    else
      var t, change := Due(me, s, k - 1), s.pendingChanges[k - 1];
      if change.applied || s.height < change.activateHeight then t
      else
        var (m, entry) := ApplyLive(me, t.members, change.op);
        t.(members := m, log := t.log + [entry], pendingChanges := t.pendingChanges[k - 1 := change.(applied := true)])
  }

  function AppliedDue(me: NodeId, s: State): State {
    Due(me, s, |s.pendingChanges|)
  }

  function CommittedBlock(me: NodeId, s: State, block: Block): State {
    AppliedDue(me, NotedAll(s.(height := s.height + 1), block, s.height))
  }

  function Initial(m: Members): State {
    State(m, [], {}, {}, [], 0)
  }

  /** A node that has committed these blocks one after the other. */
  function Live(me: NodeId, m: Members, blocks: seq<Block>): (s: State)
    ensures s.height == |blocks|
  {
    if blocks == [] then Initial(m)
    else CommittedBlock(me, Live(me, m, blocks[..|blocks| - 1]), blocks[|blocks| - 1])
  }

  // ------------------------------------------------------------------ replay: in one batch

  /** The replay records a nonce only if it is well typed, and logs no scheduling. */
  function Collected(s: State, tx: Tx, height: nat): State {
    if !tx.Membership? then s
    else
      var s1 := if tx.from.Text? && tx.nonce.Text? then s.(membershipNonces := s.membershipNonces + {NonceKey(tx)}) else s;
      var s2 := s1.(pendingChanges := s.pendingChanges + [Change(tx.op, height, height + 2, false)]);
      if Removal(tx.op)
      then s2.(expelled := s.expelled + {tx.op.nodeId}, log := s.log + [ExpelledNow(tx.op, height)])
      else s2
  }

  function CollectedAll(s: State, txs: seq<Tx>, height: nat): State {
    if txs == [] then s else Collected(CollectedAll(s, txs[..|txs| - 1], height), txs[|txs| - 1], height)
  }

  function CollectedBlocks(s: State, blocks: seq<Block>): State {
    if blocks == [] then s else CollectedAll(CollectedBlocks(s, blocks[..|blocks| - 1]), blocks[|blocks| - 1], |blocks| - 1)
  }

  function InsertByHeight(sorted: seq<Change>, c: Change): seq<Change> {
    if sorted == [] || sorted[|sorted| - 1].activateHeight <= c.activateHeight then sorted + [c]
    else InsertByHeight(sorted[..|sorted| - 1], c) + [sorted[|sorted| - 1]]
  }

  /** Stable sort by activation height. */
  function ByHeight(cs: seq<Change>): seq<Change> {
    if cs == [] then [] else InsertByHeight(ByHeight(cs[..|cs| - 1]), cs[|cs| - 1])
  }

  function ReplayedChanges(m: Members, log: seq<LogEntry>, cs: seq<Change>, height: nat): (Members, seq<LogEntry>) {
    if cs == [] then (m, log)
    else
      var (m1, log1) := ReplayedChanges(m, log, cs[..|cs| - 1], height);
      var c := cs[|cs| - 1];
      if c.activateHeight > height then (m1, log1)
      else
        var (m2, entry) := ApplyReplayed(m1, c.op);
        (m2, log1 + [entry])
  }

  function NotDue(cs: seq<Change>, height: nat): seq<Change> {
    if cs == [] then []
    else
      var init, c := NotDue(cs[..|cs| - 1], height), cs[|cs| - 1];
      if c.activateHeight > height then init + [c] else init
  }

  /** Replay of committed blocks from a state whose membership bookkeeping has been reset. */
  function ReplayedOn(s: State, blocks: seq<Block>): State {
    var t := CollectedBlocks(s, blocks);
    var (m, log) := ReplayedChanges(t.members, t.log, ByHeight(t.pendingChanges), t.height);
    t.(members := m, log := log, pendingChanges := NotDue(t.pendingChanges, t.height))
  }

  /** What restore makes of a fresh node whose committed blocks have been read back. */
  function Replayed(m: Members, blocks: seq<Block>): State {
    ReplayedOn(Initial(m).(height := |blocks|), blocks)
  }
}
