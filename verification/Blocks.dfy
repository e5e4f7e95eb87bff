/** Blocks, hashes and the messages nodes sign (phase5/vap-to.mjs).

  A block hash is the SHA-256 digest of the canonical JSON of {view, leader, parentHash, txs}.
  Taking the digest as collision free, a hash is modelled by the very content it was taken of, so
  the parent relation is a tree. A string that is no digest of any content is `Unknown`. */
module Blocks {
  import opened Wrappers
  import opened Endorse

  datatype Tx =
    | Commit(from: string, nonce: string)
    | BadCommit        // type "commit" without string from and nonce
    | OtherLane        // any other type
    | NotAnObject

  datatype Hash = Genesis | Digest(content: Content) | Unknown(text: nat)

  datatype Content = Content(view: int, leader: NodeId, parentHash: Hash, txs: seq<Tx>)

  datatype VoteTarget = VoteTarget(view: int, blockHash: Hash, parentHash: Hash)

  datatype Message =
    | ProposalMessage(content: Content)
    | VoteMessage(target: VoteTarget)
    | ViewChangeMessage(nodeId: NodeId, view: int, anchor: Option<(int, Hash)>)

  datatype QC = QC(view: int, blockHash: Hash, parentHash: Hash, sigs: seq<Endorsement<Message>>, restored: bool)

  datatype Proposal = Proposal(
    view: int, leader: NodeId, parentHash: Hash, txs: seq<Tx>,
    justify: Option<QC>, sig: Signature<Message>, blockHash: Hash)

  function ContentOf(p: Proposal): Content {
    Content(p.view, p.leader, p.parentHash, p.txs)
  }

  function HashBlock(p: Proposal): Hash {
    Digest(ContentOf(p))
  }

  /** The message a vote for the block with this digest signs. */
  function TargetOf(h: Hash): VoteTarget
    requires h.Digest?
  {
    VoteTarget(h.content.view, h, h.content.parentHash)
  }

  /** Is a on the parent chain of h (h included)? */
  predicate Extends(h: Hash, a: Hash)
    decreases h
  {
    h == a || (h.Digest? && Extends(h.content.parentHash, a))
  }

  predicate SameChain(a: Hash, b: Hash) {
    Extends(a, b) || Extends(b, a)
  }

  lemma {:induction false} ExtendsTransitive(a: Hash, b: Hash, c: Hash)
    requires Extends(a, b) && Extends(b, c)
    ensures Extends(a, c)
    decreases a
  {
    if a != b {
      ExtendsTransitive(a.content.parentHash, b, c);
    }
  }

  /** Two ancestors of one block are comparable. */
  lemma {:induction false} AncestorsAreLinear(h: Hash, a: Hash, b: Hash)
    requires Extends(h, a) && Extends(h, b)
    ensures SameChain(a, b)
    decreases h
  {
    if h != a && h != b {
      AncestorsAreLinear(h.content.parentHash, a, b);
    }
  }

  lemma {:induction false} ExtendsAntisymmetric(a: Hash, b: Hash)
    requires Extends(a, b) && Extends(b, a)
    ensures a == b
    decreases a
  {
    if a != b {
      assert Extends(a.content.parentHash, b) && Extends(b.content.parentHash, a);
      ExtendsTransitive(a.content.parentHash, b, a);
      NoCycle(a, a.content.parentHash);
    }
  }

  /** A proper ancestor is structurally smaller, so it cannot extend its descendant. */
  lemma {:induction false} NoCycle(a: Hash, h: Hash)
    requires Extends(h, a)
    ensures !(a.Digest? && h == a.content.parentHash)
    decreases h
  {
    if a.Digest? && h == a.content.parentHash {
      DepthGrows(h, a);
      assert false;
    }
  }

  function Depth(h: Hash): nat
    decreases h
  {
    if h.Digest? then 1 + Depth(h.content.parentHash) else 0
  }

  lemma {:induction false} DepthGrows(h: Hash, a: Hash)
    requires Extends(h, a)
    ensures Depth(a) <= Depth(h)
    ensures h != a ==> Depth(a) < Depth(h)
    decreases h
  {
    if h != a {
      DepthGrows(h.content.parentHash, a);
    }
  }
}
