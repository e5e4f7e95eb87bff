/** What the ancestry test of phase5/vap-to.mjs decides, in terms of the real parent chain. */
module Ancestry {
  import opened Wrappers
  import opened Blocks
  import opened NodeState

  /** x lies on the parent chain from h down to, but not including, a. */
  predicate Between(h: Hash, x: Hash, a: Hash) {
    Extends(h, x) && Extends(x, a) && x != a
  }

  /** The chain from h to a is stored, never dips below a's view, and descends strictly. */
  ghost predicate GoodPath(blocks: map<Hash, Proposal>, h: Hash, a: Hash, floor: int) {
    && Extends(h, a)
    && (forall x | Between(h, x, a) :: x in blocks && x.Digest? && floor <= x.content.view)
    && (forall x, y | Between(h, x, a) && Between(x, y, a) && x != y :: x.Digest? && y.Digest? && y.content.view < x.content.view)
  }

  lemma {:induction false} WalksFollowsChain(blocks: map<Hash, Proposal>, h: Hash, a: Hash, floor: Option<int>, ceiling: Option<int>)
    requires Walks(blocks, h, a, floor, ceiling)
    ensures Extends(h, a)
    decreases h
  {
    if h != a {
      WalksFollowsChain(blocks, h.content.parentHash, a, floor, Some(h.content.view));
    }
  }

  /** A positive answer is never wrong: the ancestor is genesis or really on the parent chain. */
  lemma IsDescendantIsSound(blocks: map<Hash, Proposal>, h: Hash, a: Hash)
    requires IsDescendant(blocks, h, a)
    ensures a == Genesis || Extends(h, a)
  {
    if a != Genesis && h != a {
      WalksFollowsChain(blocks, h, a, if a in blocks then Some(blocks[a].view) else None, None);
    }
  }

  lemma {:induction false} GoodPathWalks(blocks: map<Hash, Proposal>, h: Hash, a: Hash, floor: int, ceiling: Option<int>)
    requires GoodPath(blocks, h, a, floor)
    requires h != a && ceiling.Some? ==> h.Digest? && h.content.view < ceiling.value
    ensures Walks(blocks, h, a, Some(floor), ceiling)
    decreases h
  {
    if h != a {
      assert Between(h, h, a);
      var next := h.content.parentHash;
      assert Extends(h, next);
      forall x | Between(next, x, a)
        ensures Between(h, x, a)
      {
        ExtendsTransitive(h, next, x);
      }
      if next != a {
        assert Between(next, next, a) && Between(h, next, a);
        DepthGrows(next, next);
      }
      GoodPathWalks(blocks, next, a, floor, Some(h.content.view));
    }
  }

  lemma {:induction false} WalksIsGoodPath(blocks: map<Hash, Proposal>, h: Hash, a: Hash, floor: int, ceiling: Option<int>, x: Hash)
    requires Walks(blocks, h, a, Some(floor), ceiling) && Between(h, x, a)
    ensures x in blocks && x.Digest? && floor <= x.content.view
    ensures ceiling.Some? ==> x.content.view < ceiling.value
    decreases h
  {
    if h == a {
      ExtendsAntisymmetric(a, x);
    } else if x != h {
      WalksIsGoodPath(blocks, h.content.parentHash, a, floor, Some(h.content.view), x);
    }
  }

  lemma {:induction false} WalksDescends(blocks: map<Hash, Proposal>, h: Hash, a: Hash, floor: int, ceiling: Option<int>, x: Hash, y: Hash)
    requires Walks(blocks, h, a, Some(floor), ceiling)
    requires Between(h, x, a) && Between(x, y, a) && x != y
    ensures x.Digest? && y.Digest? && y.content.view < x.content.view
    decreases h
  {
    if h == a {
      ExtendsAntisymmetric(a, x);
    } else if x == h {
      WalksIsGoodPath(blocks, h.content.parentHash, a, floor, Some(h.content.view), y);
    } else {
      WalksDescends(blocks, h.content.parentHash, a, floor, Some(h.content.view), x, y);
    }
  }

  /** Exactly when the test says yes: the ancestor is genesis or the block itself, or it is stored
    and so is the whole chain down to it, along strictly decreasing views that stay at or above the
    ancestor's. In particular a real ancestor that is not stored is not recognised. */
  lemma IsDescendantExactly(blocks: map<Hash, Proposal>, h: Hash, a: Hash)
    requires WellFiled(blocks)
    ensures IsDescendant(blocks, h, a) <==>
            a == Genesis || h == a || (a in blocks && GoodPath(blocks, h, a, blocks[a].view))
  {
    if a != Genesis && h != a {
      if a !in blocks {
        assert !Walks(blocks, h, a, None, None);
      } else {
        var floor := blocks[a].view;
        if Walks(blocks, h, a, Some(floor), None) {
          WalksFollowsChain(blocks, h, a, Some(floor), None);
          forall x | Between(h, x, a)
            ensures x in blocks && x.Digest? && floor <= x.content.view
          {
            WalksIsGoodPath(blocks, h, a, floor, None, x);
          }
          forall x, y | Between(h, x, a) && Between(x, y, a) && x != y
            ensures x.Digest? && y.Digest? && y.content.view < x.content.view
          {
            WalksDescends(blocks, h, a, floor, None, x, y);
          }
        }
        if GoodPath(blocks, h, a, floor) {
          GoodPathWalks(blocks, h, a, floor, None);
        }
      }
    }
  }
}
