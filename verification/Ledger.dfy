/** The ledger file, the snapshot beside it, and what a restart makes of them
  (phase5/vap-to.mjs: readLedgerLines, readSnapshot, restore). */
module Ledger {
  import opened Wrappers
  import opened Endorse
  import opened Blocks
  import opened NodeState

  /** A line of the file: empty, not JSON (a torn write), or JSON that is a ledger record or not. */
  datatype Line = Blank | Torn | NoRecord | Written(record: Record)

  predicate Parses(line: Line) {
    line.NoRecord? || line.Written?
  }

  /** What reading the file yields: lines that do not parse are skipped. */
  function Values(lines: seq<Line>): (values: seq<Line>)
    ensures forall v | v in values :: Parses(v)
  {
    if lines == [] then []
    else
      var init := Values(lines[..|lines| - 1]);
      if Parses(lines[|lines| - 1]) then init + [lines[|lines| - 1]] else init
  }

  /** A record that continues the chain: right height, right predecessor, own digest, leader's signature. */
  predicate GoodRecord(p: Params, v: Line, height: nat, prev: Hash) {
    && v.Written?
    && v.record.height == height && v.record.prevHash == prev
    && v.record.block.blockHash == HashBlock(v.record.block)
    && Signed(p, v.record.block)
  }

  predicate Signed(p: Params, b: Proposal) {
    b.leader in p.keys && Verifies(ProposalMessage(ContentOf(b)), p.keys[b.leader], b.sig)
  }

  /** Replay from the given prefix on, up to the first record that does not continue the chain. */
  function Replay(p: Params, values: seq<Line>, blocks: seq<Proposal>, prev: Hash): (r: seq<Proposal>)
    ensures blocks <= r && (|blocks| <= |values| ==> |r| <= |values|)
    decreases |values| - |blocks|
  {
    if |blocks| < |values| && GoodRecord(p, values[|blocks|], |blocks|, prev)
    then Replay(p, values, blocks + [values[|blocks|].record.block], values[|blocks|].record.block.blockHash)
    else blocks
  }

  /** A snapshot is used only if its blocks form a parent-linked chain from genesis with right
    digests, not longer than the ledger. */
  predicate UsableSnapshot(snap: Snapshot, ledgerLength: nat) {
    && snap.height > 0 && |snap.blocks| == snap.height && snap.height <= ledgerLength
    && (forall i | 0 <= i < |snap.blocks| :: SnapshotLink(snap.blocks, i))
    && snap.lastCommittedHash == snap.blocks[|snap.blocks| - 1].blockHash
  }

  predicate SnapshotLink(blocks: seq<Proposal>, i: nat)
    requires i < |blocks|
  {
    && blocks[i].parentHash == (if i == 0 then Genesis else blocks[i - 1].blockHash)
    && blocks[i].blockHash == HashBlock(blocks[i])
  }

  /** The committed prefix a restart recovers. */
  function Recovered(p: Params, lines: seq<Line>, snap: Option<Snapshot>): seq<Proposal> {
    var values := Values(lines);
    if snap.Some? && UsableSnapshot(snap.value, |values|)
    then Replay(p, values, snap.value.blocks, snap.value.lastCommittedHash)
    else Replay(p, values, [], Genesis)
  }

  /** A file whose chain breaks is cut back to its good prefix; otherwise it is left alone. */
  function Compacted(lines: seq<Line>, recovered: nat): seq<Line> {
    var values := Values(lines);
    if recovered < |values| then values[..recovered] else lines
  }

  /** The stand-in for a committed block's certificate, whose signatures are not in the ledger. */
  function RestoredQC(b: Proposal): QC {
    QC(b.view, b.blockHash, b.parentHash, [], true)
  }

  function Cleared(s: State): State {
    State(s.view, None, {}, map[], [], map[], map[], None, None, s.viewChanges, s.viewChangeOrder, s.newViews,
          [], {}, Genesis, {}, s.expelled, [], {}, s.ledger, s.snapshot)
  }

  function Reinstated(s: State, b: Proposal): State {
    var s1 := StoreBlock(s, b).(committed := s.committed + [b], committedHashes := s.committedHashes + {b.blockHash});
    var s2 := IndexCertifiedChild(Adopt(s1, RestoredQC(b)), b.blockHash);
    s2.(seenNonces := s.seenNonces + Nonces(b.txs), lastCommittedHash := b.blockHash)
  }

  function ReinstatedAll(s: State, blocks: seq<Proposal>): State {
    if blocks == [] then s
    else Reinstated(ReinstatedAll(s, blocks[..|blocks| - 1]), blocks[|blocks| - 1])
  }

  function Restored(p: Params, s: State, lines: seq<Line>, snap: Option<Snapshot>): State {
    var blocks := Recovered(p, lines, snap);
    var s1 := ReinstatedAll(Cleared(s), blocks);
    if blocks == [] then s1 else s1.(view := blocks[|blocks| - 1].view + 1)
  }
}
