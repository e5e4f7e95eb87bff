/** The membership node as the object it is in phase6/vap-to-membership.mjs: fields updated in place,
  verified against the functions of Membership.dfy. */
module MembershipNode {
  import opened Wrappers
  import opened Endorse
  import opened Membership
  import MembershipReplay
  import MembershipQuorums
  import Quorum

  class Node {
    const nodeId: NodeId
    var roster: seq<Member>
    var peerMap: map<NodeId, PublicKey>
    var n: int
    var f: int
    var threshold: int
    var pendingChanges: seq<Change>
    var expelled: set<NodeId>
    var membershipNonces: set<string>
    var membershipLog: seq<LogEntry>
    var committed: seq<Block>
    var committedHeight: nat

    function Current(): Members
      reads this
    {
      Members(roster, peerMap, n, f, threshold)
    }

    function Abs(): State
      reads this
    {
      State(Current(), pendingChanges, expelled, membershipNonces, membershipLog, committedHeight)
    }

    constructor (nodeId: NodeId, members: Members)
      ensures this.nodeId == nodeId && Abs() == Initial(members) && committed == []
    {
      this.nodeId := nodeId;
      roster, peerMap := members.roster, members.peerMap;
      n, f, threshold := members.n, members.f, members.threshold;
      pendingChanges, expelled, membershipNonces, membershipLog := [], {}, {}, [];
      committed, committedHeight := [], 0;
    }

    method RecomputeQuorum()
      modifies this`n, this`f, this`threshold
      ensures Current() == Recomputed(old(Current())) && MembershipQuorums.Proper(Current())
    {
      MembershipQuorums.RecomputedIsProper(Current());
      n := |roster|;
      f := Quorum.FaultBudget(|roster|);
      threshold := Quorum.RosterThreshold(|roster|);
    }

    /** The roster and key-table part of a change, shared by the live and the replay path. */
    method UpdateRoster(op: Op)
      modifies this`roster, this`peerMap
      ensures Current() == Changed(old(Current()), op)
    {
      match op
      case Join(id, key) =>
        if id !in peerMap {
          roster := Sorted(roster + [Member(id, key)]);
          peerMap := peerMap[id := key];
        }
      case Slash(id) =>
        if id in peerMap {
          roster := Without(roster, id);
          peerMap := peerMap - {id};
        }
      case Expel(id) =>
        if id in peerMap {
          roster := Without(roster, id);
          peerMap := peerMap - {id};
        }
      case Rotate(id, key) =>
        if id in peerMap {
          peerMap := peerMap[id := key];
          roster := Rekeyed(roster, id, key);
        }
      case Report =>
    }

    method ApplyRosterChange(op: Op)
      modifies this`roster, this`peerMap, this`n, this`f, this`threshold, this`membershipLog
      ensures var (m, entry) := ApplyLive(nodeId, old(Current()), op);
        Current() == m && membershipLog == old(membershipLog) + [entry]
      ensures !Refuses(nodeId, old(Current()), op) ==> MembershipQuorums.Proper(Current())
    {
      if op.Rotate? && op.nodeId in peerMap && op.nodeId == nodeId && op.newPubKey.Unusable? {
        membershipLog := membershipLog + [Rejected(op)];
        return;
      }
      UpdateRoster(op);
      RecomputeQuorum();
      membershipLog := membershipLog + [Applied(op, n, f, threshold)];
    }

    method ApplyReplayRosterChange(op: Op)
      modifies this`roster, this`peerMap, this`n, this`f, this`threshold, this`membershipLog
      ensures var (m, entry) := ApplyReplayed(old(Current()), op);
        Current() == m && membershipLog == old(membershipLog) + [entry]
      ensures MembershipQuorums.Proper(Current())
    {
      UpdateRoster(op);
      RecomputeQuorum();
      membershipLog := membershipLog + [Applied(op, n, f, threshold)];
    }

    method ApplyDueChanges()
      modifies this`roster, this`peerMap, this`n, this`f, this`threshold, this`membershipLog, this`pendingChanges
      ensures Abs() == AppliedDue(nodeId, old(Abs()))
    {
      ghost var s := Abs();
      for k := 0 to |pendingChanges|
        invariant |pendingChanges| == |s.pendingChanges| && Abs() == Due(nodeId, s, k)
      {
        var change := pendingChanges[k];
        if change.applied {
          continue;
        }
        if committedHeight >= change.activateHeight {
          ApplyRosterChange(change.op);
          pendingChanges := pendingChanges[k := change.(applied := true)];
        }
      }
    }

    method ScheduleMembership(op: Op, height: nat)
      modifies this`pendingChanges, this`membershipLog
      ensures pendingChanges == old(pendingChanges) + [Change(op, height, height + 2, false)]
      ensures membershipLog == old(membershipLog) + [Scheduled(op, height)]
    {
      pendingChanges := pendingChanges + [Change(op, height, height + 2, false)];
      membershipLog := membershipLog + [Scheduled(op, height)];
    }

    /** Membership bookkeeping of one committed transaction. */
    method NoteTx(tx: Tx, height: nat)
      modifies this`membershipNonces, this`pendingChanges, this`membershipLog, this`expelled
      ensures Abs() == Noted(old(Abs()), tx, height)
    {
      if tx.Membership? {
        membershipNonces := membershipNonces + {NonceKey(tx)};
        ScheduleMembership(tx.op, height);
        if tx.op.Slash? || tx.op.Expel? {
          expelled := expelled + {tx.op.nodeId};
          membershipLog := membershipLog + [ExpelledNow(tx.op, height)];
        }
      }
    }

    method CommitBlock(block: Block)
      modifies this
      ensures Abs() == CommittedBlock(nodeId, old(Abs()), block) && committed == old(committed) + [block]
    {
      var height := committedHeight;
      committed := committed + [block];
      committedHeight := committedHeight + 1;
      ghost var s := Abs();
      for k := 0 to |block|
        invariant Abs() == NotedAll(s, block[..k], height) && committed == old(committed) + [block]
      {
        assert block[..k + 1][..k] == block[..k];
        NoteTx(block[k], height);
      }
      assert block[..|block|] == block;
      ApplyDueChanges();
    }

    method CollectTx(tx: Tx, height: nat)
      modifies this`membershipNonces, this`pendingChanges, this`membershipLog, this`expelled
      ensures Abs() == Collected(old(Abs()), tx, height)
    {
      if !tx.Membership? {
        return;
      }
      if tx.from.Text? && tx.nonce.Text? {
        membershipNonces := membershipNonces + {NonceKey(tx)};
      }
      pendingChanges := pendingChanges + [Change(tx.op, height, height + 2, false)];
      if tx.op.Slash? || tx.op.Expel? {
        expelled := expelled + {tx.op.nodeId};
        membershipLog := membershipLog + [ExpelledNow(tx.op, height)];
      }
    }

    method CollectAll()
      modifies this`membershipNonces, this`pendingChanges, this`membershipLog, this`expelled
      ensures Abs() == CollectedBlocks(old(Abs()), committed)
    {
      ghost var s := Abs();
      for h := 0 to |committed|
        invariant Abs() == CollectedBlocks(s, committed[..h])
      {
        assert committed[..h + 1][..h] == committed[..h];
        ghost var before := Abs();
        var block := committed[h];
        for k := 0 to |block|
          invariant Abs() == CollectedAll(before, block[..k], h)
        {
          assert block[..k + 1][..k] == block[..k];
          CollectTx(block[k], h);
        }
        assert block[..|block|] == block;
      }
      assert committed[..|committed|] == committed;
    }

    method ReplayMembership()
      modifies this`roster, this`peerMap, this`n, this`f, this`threshold, this`membershipLog, this`pendingChanges,
               this`membershipNonces, this`expelled
      ensures Abs() == ReplayedOn(old(Abs()), committed)
    {
      CollectAll();
      ghost var s := Abs();
      var changes := ByHeight(pendingChanges);
      for k := 0 to |changes|
        invariant (Current(), membershipLog) == ReplayedChanges(s.members, s.log, changes[..k], committedHeight)
        invariant Abs() == s.(members := Current(), log := membershipLog)
      {
        assert changes[..k + 1][..k] == changes[..k];
        if changes[k].activateHeight > committedHeight {
          continue;
        }
        ApplyReplayRosterChange(changes[k].op);
      }
      assert changes[..|changes|] == changes;
      pendingChanges := NotDue(pendingChanges, committedHeight);
    }

    /** Restart: the committed blocks are read back, the membership state is reset and replayed. Roster,
      key table and quorum numbers are not reset; a new process holds the configured ones. */
    method Restore(blocks: seq<Block>)
      modifies this
      ensures committed == blocks
      ensures Abs() == ReplayedOn(State(old(Current()), [], {}, {}, [], |blocks|), blocks)
    {
      hide ReplayedOn;
      committed, committedHeight := blocks, |blocks|;
      membershipNonces, expelled, pendingChanges, membershipLog := {}, {}, [], [];
      ReplayMembership();
    }
  }

  method CommitAll(nodeId: NodeId, members: Members, blocks: seq<Block>) returns (live: Node)
    ensures fresh(live) && live.Abs() == Live(nodeId, members, blocks)
  {
    hide CommittedBlock;
    live := new Node(nodeId, members);
    for k := 0 to |blocks|
      invariant fresh(live) && live.nodeId == nodeId && live.Abs() == Live(nodeId, members, blocks[..k])
    {
      assert blocks[..k + 1][..k] == blocks[..k];
      live.CommitBlock(blocks[k]);
    }
    assert blocks[..|blocks|] == blocks;
  }

  method RestoreAll(nodeId: NodeId, members: Members, blocks: seq<Block>) returns (restored: Node)
    ensures fresh(restored) && restored.Abs() == Replayed(members, blocks)
  {
    hide ReplayedOn;
    restored := new Node(nodeId, members);
    restored.Restore(blocks);
  }

  /** A node commits a chain; a second one, started with the same configuration, restores it. They end
    with the same membership exactly if the first one's own key and quorum numbers are settled. */
  method CommitThenRestore(nodeId: NodeId, members: Members, blocks: seq<Block>) returns (live: Node, restored: Node)
    ensures fresh(live) && fresh(restored) && live.expelled == restored.expelled
    ensures live.Current() == restored.Current() <==>
            && MembershipReplay.OwnKeySettled(nodeId, members, MembershipReplay.InForce(blocks), live.Current())
            && MembershipReplay.NumbersSettled(nodeId, members, MembershipReplay.InForce(blocks))
  {
    hide Live, Replayed, MembershipReplay.OwnKeySettled, MembershipReplay.NumbersSettled;
    live := CommitAll(nodeId, members, blocks);
    restored := RestoreAll(nodeId, members, blocks);
    MembershipReplay.ReplayAgreesIff(nodeId, members, blocks);
    MembershipReplay.MembersAgreeIff(nodeId, members, blocks);
    assert live.Abs() == Live(nodeId, members, blocks);
    assert restored.Abs() == Replayed(members, blocks);
  }
}
