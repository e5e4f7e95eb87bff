/** When a view change succeeds (phase5/vap-to.mjs: onTimeout, receiveViewChange, aggregateNewView,
  proposeNewView), told by the set of members whose view changes are on file. */
module ViewChanges {
  import opened Wrappers
  import opened Endorse
  import opened Blocks
  import opened NodeState
  import opened VoteLog
  import opened Protocol
  import opened VoteMeaning
  import Quorum

  type File = map<NodeId, map<int, ViewChange>>

  /** Each member's view changes are filed under its id and their view, and the order lists every member
    on file once. */
  ghost predicate FiledWell(changes: File, order: seq<NodeId>) {
    && (forall id :: id in order <==> id in changes)
    && (forall i, j | 0 <= i < j < |order| :: order[i] != order[j])
    && (forall id, v | id in changes && v in changes[id] :: changes[id][v].nodeId == id && changes[id][v].view == v)
  }

  /** A view change signed by its sender, carrying no certificate or one signed by a quorum. */
  predicate SoundChange(p: Params, vc: ViewChange) {
    && vc.nodeId in p.keys && vc.view >= 0
    && vc.sig == SignedBy(p.keys[vc.nodeId], ViewChangeMessage(vc.nodeId, vc.view,
         if vc.highestQC.None? then None else Some((vc.highestQC.value.view, vc.highestQC.value.blockHash))))
    && (vc.highestQC.Some? ==> SignedByQuorum(p, {}, vc.highestQC.value))
  }

  predicate FiledSound(p: Params, changes: File) {
    forall id, v | id in changes && v in changes[id] :: SoundChange(p, changes[id][v])
  }

  ghost predicate WellKept(p: Params, s: State) {
    && s.view >= 0 && FiledWell(s.viewChanges, s.viewChangeOrder) && FiledSound(p, s.viewChanges)
    && (s.highestQC.Some? ==> SignedByQuorum(p, {}, s.highestQC.value))
  }

  /** The members, not expelled, whose change to the view is on file. */
  function Ready(s: State, view: int): set<NodeId> {
    set id | id in s.viewChanges && view in s.viewChanges[id] && id !in s.expelled
  }

  // ------------------------------------------------------------------ aggregation

  function ReadyAmong(s: State, view: int, order: seq<NodeId>): set<NodeId> {
    set id | id in order && id in Ready(s, view)
  }

  lemma ReadyPush(s: State, view: int, init: seq<NodeId>, last: NodeId)
    requires last !in init
    ensures |ReadyAmong(s, view, init + [last])| == |ReadyAmong(s, view, init)| + if last in Ready(s, view) then 1 else 0
  {
    hide Ready;
    assert ReadyAmong(s, view, init + [last]) == ReadyAmong(s, view, init) + if last in Ready(s, view) then {last} else {};
  }

  predicate FiledUnderSender(changes: File) {
    forall id, v | id in changes && v in changes[id] :: changes[id][v].nodeId == id
  }

  lemma FiledPush(s: State, view: int, init: seq<NodeId>, last: NodeId)
    requires FiledUnderSender(s.viewChanges)
    ensures FiledFor(s, view, init + [last]) ==
            FiledFor(s, view, init) + if last in Ready(s, view) then [s.viewChanges[last][view]] else []
  {
    assert (init + [last])[..|init|] == init;
  }

  lemma {:induction false} FiledIsReady(s: State, view: int, order: seq<NodeId>)
    requires FiledUnderSender(s.viewChanges)
    requires forall i, j | 0 <= i < j < |order| :: order[i] != order[j]
    ensures |FiledFor(s, view, order)| == |ReadyAmong(s, view, order)|
  {
    hide FiledFor, Ready, ReadyAmong, FiledUnderSender;
    if order != [] {
      var init, last := order[..|order| - 1], order[|order| - 1];
      FiledIsReady(s, view, init);
      assert order == init + [last] && last !in init;
      FiledPush(s, view, init, last);
      ReadyPush(s, view, init, last);
    } else {
      NothingFiled(s, view);
    }
  }

  lemma NothingFiled(s: State, view: int)
    ensures FiledFor(s, view, []) == [] && ReadyAmong(s, view, []) == {}
  {
  }

  /** Aggregation succeeds exactly for a view that is not negative and that enough members have changed to:
    more than twice the faults and at least two thirds of all. */
  lemma AggregatesIff(p: Params, s: State, view: int)
    requires FiledWell(s.viewChanges, s.viewChangeOrder)
    ensures AggregatedNewView(p, s, view).Some? <==>
            view >= 0 && |Ready(s, view)| >= 2 * p.f + 1 && 3 * |Ready(s, view)| >= 2 * p.n
  {
    FiledIsReady(s, view, s.viewChangeOrder);
    assert ReadyAmong(s, view, s.viewChangeOrder) == Ready(s, view);
    ThresholdIs(p, |Ready(s, view)|);
  }

  /** The certificates carried by the members on file that are ready, in filing order. */
  function Carried(s: State, view: int, order: seq<NodeId>): (cs: seq<Option<QC>>)
    ensures |cs| == |order|
    ensures forall k | 0 <= k < |order| ::
      cs[k] == if order[k] in Ready(s, view) then s.viewChanges[order[k]][view].highestQC else None
  {
    seq(|order|, k requires 0 <= k < |order| => if order[k] in Ready(s, view) then s.viewChanges[order[k]][view].highestQC else None)
  }

  predicate HighestAt(cs: seq<Option<QC>>, k: nat)
    requires k < |cs| && cs[k].Some?
  {
    forall j | 0 <= j < |cs| && cs[j].Some? ::
      if j < k then cs[j].value.view < cs[k].value.view else cs[j].value.view <= cs[k].value.view
  }

  /** The first of the highest certificates, if there is any. */
  predicate IsFirstHighest(cs: seq<Option<QC>>, a: Option<QC>) {
    if a.None? then forall k | 0 <= k < |cs| :: cs[k].None?
    else exists k :: 0 <= k < |cs| && cs[k] == a && HighestAt(cs, k)
  }

  lemma FirstHighestPush(cs: seq<Option<QC>>, c: Option<QC>, a: Option<QC>)
    requires IsFirstHighest(cs, a)
    ensures IsFirstHighest(cs + [c], if c.Some? && (a.None? || c.value.view > a.value.view) then c else a)
  {
    var more := cs + [c];
    assert more[|cs|] == c && forall k | 0 <= k < |cs| :: more[k] == cs[k];
    if c.Some? && (a.None? || c.value.view > a.value.view) {
      assert HighestAt(more, |cs|);
    } else if a.Some? {
      var k :| 0 <= k < |cs| && cs[k] == a && HighestAt(cs, k);
      assert HighestAt(more, k);
    }
  }

  lemma AnchorPush(vcs: seq<ViewChange>, vc: ViewChange)
    ensures var a, c := Anchor(vcs), vc.highestQC;
      Anchor(vcs + [vc]) == if c.Some? && (a.None? || c.value.view > a.value.view) then c else a
  {
    assert (vcs + [vc])[..|vcs|] == vcs;
  }

  lemma {:induction false} AnchorIsFirstHighest(s: State, view: int, order: seq<NodeId>)
    requires FiledUnderSender(s.viewChanges)
    ensures IsFirstHighest(Carried(s, view, order), Anchor(FiledFor(s, view, order)))
  {
    hide FiledFor, Ready, FiledUnderSender, Anchor, IsFirstHighest;
    if order != [] {
      var init, last := order[..|order| - 1], order[|order| - 1];
      AnchorIsFirstHighest(s, view, init);
      assert order == init + [last];
      FiledPush(s, view, init, last);
      var cs, c := Carried(s, view, init), Carried(s, view, order)[|init|];
      assert Carried(s, view, order) == cs + [c];
      FirstHighestPush(cs, c, Anchor(FiledFor(s, view, init)));
      if last in Ready(s, view) {
        ReadyIsFiled(s, view, last);
        AnchorPush(FiledFor(s, view, init), s.viewChanges[last][view]);
      } else {
        assert FiledFor(s, view, init) + [] == FiledFor(s, view, init);
      }
    } else {
      NothingCarried(s, view);
    }
  }

  lemma NothingCarried(s: State, view: int)
    ensures IsFirstHighest(Carried(s, view, []), Anchor(FiledFor(s, view, [])))
  {
  }

  lemma ReadyIsFiled(s: State, view: int, id: NodeId)
    ensures id in Ready(s, view) <==> id in s.viewChanges && view in s.viewChanges[id] && id !in s.expelled
  {
  }

  // ------------------------------------------------------------------ proposing

  /** The block a leader proposes on the given certificate: signed, carrying the certificate unless it only
    stands for a block read back, with the pending transactions in text order. */
  predicate ProposedOn(p: Params, s: State, high: Option<QC>, v: int, b: Proposal) {
    var content := Content(v, p.me, if high.Some? then high.value.blockHash else s.lastCommittedHash, b.txs);
    && p.me in p.keys
    && b.view == content.view && b.leader == content.leader && b.parentHash == content.parentHash
    && b.blockHash == Digest(content) && b.sig == SignedBy(p.keys[p.me], ProposalMessage(content))
    && b.justify == (if high.Some? && !high.value.restored then high else None)
    && multiset(b.txs) == multiset(s.pendingTxs) && InTextOrder(b.txs)
  }

  /** The block is stored and up for votes, its view is entered, the mempool is empty. */
  predicate UpForVotes(s: State, b: Proposal, t: State) {
    && t.activeProposal == Some(b) && t.view == b.view && t.blocks == s.blocks[b.blockHash := b]
    && t.blockOrder == s.blockOrder + (if b.blockHash in s.blocks then [] else [b.blockHash])
    && t.pendingTxs == [] && t.pendingNonces == {} && t.votedViews == s.votedViews && t.lock == s.lock
  }

  /** A node proposes exactly in views it leads and has not left. */
  lemma ProposesIff(p: Params, s: State, v: int)
    requires p.Valid()
    ensures var t := Proposed(p, s, v);
      if v >= 0 && p.roster[v % p.n] == p.me && s.view <= v then
        && t.activeProposal.Some? && ProposedOn(p, s, s.highestQC, v, t.activeProposal.value)
        && UpForVotes(s, t.activeProposal.value, t) && t.highestQC == s.highestQC && t.qcByBlockHash == s.qcByBlockHash
      else t == s
  {
    hide InTextOrder;
    var sorted := SortTxs(s.pendingTxs);
    assert multiset(sorted) == multiset(s.pendingTxs) && InTextOrder(sorted);
    hide SortTxs;
  }

  /** The certificate verifies and is not lower than the highest one the node has. */
  predicate AnchorHolds(p: Params, s: State, a: Option<QC>) {
    a.Some? ==>
      && SignedByQuorum(p, s.expelled, a.value)
      && (s.highestQC.Some? ==> s.highestQC.value.view <= a.value.view)
  }

  lemma AdoptsIff(p: Params, s: State, nv: NewView)
    ensures AdoptedNewView(p, s, nv) ==
      if nv.anchorQC.Some? && AnchorHolds(p, s, nv.anchorQC)
      then s.(highestQC := nv.anchorQC, qcByBlockHash := s.qcByBlockHash[nv.anchorQC.value.blockHash := nv.anchorQC.value])
      else s
    ensures RejectsAnchor(p, s, nv) <==> !AnchorHolds(p, s, nv.anchorQC)
  {
    hide QCVerifies, SignedByQuorum;
    if nv.anchorQC.Some? {
      QCVerifiesIff(p, s, nv.anchorQC.value);
    }
  }

  /** Enough members have changed to the view. */
  predicate QuorumReady(p: Params, s: State, v: int) {
    |Ready(s, v)| >= 2 * p.f + 1 && 3 * |Ready(s, v)| >= 2 * p.n
  }

  /** The view is open: a proposal on the anchor, or on the node's own highest certificate if there is none,
    is up for votes. */
  predicate ViewOpened(p: Params, s: State, v: int, a: Option<QC>, t: State) {
    var high := if a.Some? then a else s.highestQC;
    && t.activeProposal.Some? && ProposedOn(p, s, high, v, t.activeProposal.value)
    && UpForVotes(s, t.activeProposal.value, t) && t.highestQC == high
    && v in t.newViews && t.newViews[v] == NewView(v, a)
  }

  predicate NothingProposed(s: State, t: State) {
    t.activeProposal == s.activeProposal && t.blocks == s.blocks && t.view == s.view
  }

  /** The leader of a view opens it exactly if it has not left it, enough members have changed to it, and
    the first of the highest certificates they carry verifies and is not lower than its own. */
  lemma OpensViewIff(p: Params, s: State, v: int) returns (a: Option<QC>)
    requires p.Valid() && FiledWell(s.viewChanges, s.viewChangeOrder)
    ensures IsFirstHighest(Carried(s, v, s.viewChangeOrder), a)
    ensures var t := ProposedNewView(p, s, v);
      if v >= 0 && p.roster[v % p.n] == p.me && s.view <= v && QuorumReady(p, s, v) && AnchorHolds(p, s, a)
      then ViewOpened(p, s, v, a, t) else NothingProposed(s, t)
  {
    hide Anchor, FiledFor, AnchorHolds, ViewOpened, QuorumReady, IsFirstHighest;
    a := Anchor(FiledFor(s, v, s.viewChangeOrder));
    AnchorIsFirstHighest(s, v, s.viewChangeOrder);
    ReadyIff(p, s, v);
    hide AggregatedNewView, ProposedNewView;
    if v >= 0 && p.roster[v % p.n] == p.me && QuorumReady(p, s, v) {
      OpensOn(p, s, v, a);
    } else {
      NotOpened(p, s, v);
    }
  }

  lemma ReadyIff(p: Params, s: State, v: int)
    requires FiledWell(s.viewChanges, s.viewChangeOrder)
    ensures AggregatedNewView(p, s, v) ==
            if v >= 0 && QuorumReady(p, s, v) then Some(NewView(v, Anchor(FiledFor(s, v, s.viewChangeOrder)))) else None
  {
    hide Ready, Anchor, FiledFor, FiledWell;
    AggregatesIff(p, s, v);
  }

  lemma NotOpened(p: Params, s: State, v: int)
    requires p.Valid() && (AggregatedNewView(p, s, v).None? || v < 0 || p.roster[v % p.n] != p.me)
    ensures NothingProposed(s, ProposedNewView(p, s, v))
  {
    hide AggregatedNewView;
  }

  lemma OpensOn(p: Params, s: State, v: int, a: Option<QC>)
    requires p.Valid() && v >= 0 && p.roster[v % p.n] == p.me && AggregatedNewView(p, s, v) == Some(NewView(v, a))
    ensures var t := ProposedNewView(p, s, v);
      if s.view <= v && AnchorHolds(p, s, a) then ViewOpened(p, s, v, a, t) else NothingProposed(s, t)
  {
    hide AggregatedNewView, Proposed, AdoptedNewView, RejectsAnchor, AnchorHolds, ProposedOn, UpForVotes;
    var nv := NewView(v, a);
    var s1 := Aggregated(p, s, v);
    AdoptsIff(p, s1, nv);
    AnchorApart(p, s, s1, a);
    if AnchorHolds(p, s, a) {
      var s2 := AdoptedNewView(p, s1, nv);
      ProposesIff(p, s2, v);
      ProposedKeepsNewViews(p, s2, v);
      OnlyApart(p, s, s2, v);
    }
  }

  /** What is proposed depends on mempool and certificates only. */
  lemma OnlyApart(p: Params, s: State, s2: State, v: int)
    requires s2.pendingTxs == s.pendingTxs && s2.lastCommittedHash == s.lastCommittedHash && s2.blocks == s.blocks
    requires s2.blockOrder == s.blockOrder && s2.votedViews == s.votedViews && s2.lock == s.lock
    ensures forall b, t :: UpForVotes(s2, b, t) <==> UpForVotes(s, b, t)
    ensures forall b, high :: ProposedOn(p, s2, high, v, b) <==> ProposedOn(p, s, high, v, b)
  {
    hide InTextOrder;
  }

  lemma AnchorApart(p: Params, s: State, t: State, a: Option<QC>)
    requires s.expelled == t.expelled && s.highestQC == t.highestQC
    ensures AnchorHolds(p, s, a) <==> AnchorHolds(p, t, a)
  {
  }

  lemma ProposedKeepsNewViews(p: Params, s: State, v: int)
    requires p.Valid()
    ensures Proposed(p, s, v).newViews == s.newViews
  {
  }

  // ------------------------------------------------------------------ filing

  function ChangesOf(s: State, id: NodeId): map<int, ViewChange> {
    if id in s.viewChanges then s.viewChanges[id] else map[]
  }

  /** A file with one more view change in it. */
  predicate FiledWith(s: State, vc: ViewChange, changes: File, order: seq<NodeId>) {
   
    && changes == s.viewChanges[vc.nodeId := ChangesOf(s, vc.nodeId)[vc.view := vc]]
    && order == s.viewChangeOrder + (if vc.nodeId in s.viewChanges then [] else [vc.nodeId])
  }

  /** Sent by a member not expelled, over its own signature, with a certificate that verifies or none. */
  predicate Fileable(p: Params, expelled: set<NodeId>, vc: ViewChange) {
    && vc.nodeId in p.keys && vc.nodeId !in expelled && vc.view >= 0
    && vc.sig == SignedBy(p.keys[vc.nodeId], ViewChangeMessage(vc.nodeId, vc.view,
         if vc.highestQC.None? then None else Some((vc.highestQC.value.view, vc.highestQC.value.blockHash))))
    && (vc.highestQC.Some? ==> SignedByQuorum(p, expelled, vc.highestQC.value))
  }

  lemma ReceivesIff(p: Params, s: State, vc: ViewChange)
    ensures var t := ReceivedViewChange(p, s, vc);
      && t == s.(viewChanges := t.viewChanges, viewChangeOrder := t.viewChangeOrder)
      && if Fileable(p, s.expelled, vc) then FiledWith(s, vc, t.viewChanges, t.viewChangeOrder) else t == s
  {
    hide QCVerifies, SignedByQuorum;
    if vc.highestQC.Some? {
      QCVerifiesIff(p, s, vc.highestQC.value);
    }
  }

  /** The view change a node files and sends when it gives up on its view. */
  function OwnChange(p: Params, s: State): ViewChange
    requires p.me in p.keys
  {
    var anchor := if s.highestQC.None? then None else Some((s.highestQC.value.view, s.highestQC.value.blockHash));
    ViewChange(p.me, s.view + 1, s.highestQC, SignedBy(p.keys[p.me], ViewChangeMessage(p.me, s.view + 1, anchor)))
  }

  lemma TimesOut(p: Params, s: State)
    requires p.Valid()
    ensures var t := TimedOut(p, s);
      && t == s.(view := s.view + 1, viewChanges := t.viewChanges, viewChangeOrder := t.viewChangeOrder)
      && FiledWith(s, OwnChange(p, s), t.viewChanges, t.viewChangeOrder)
      && OwnViewChange(p, s) == OwnChange(p, s)
  {
  }

  lemma FiledWellStays(s: State, vc: ViewChange, changes: File, order: seq<NodeId>)
    requires FiledWell(s.viewChanges, s.viewChangeOrder) && FiledWith(s, vc, changes, order)
    ensures FiledWell(changes, order)
  {
  }

  lemma FiledSoundStays(p: Params, s: State, vc: ViewChange, changes: File, order: seq<NodeId>)
    requires FiledSound(p, s.viewChanges) && FiledWith(s, vc, changes, order) && SoundChange(p, vc)
    ensures FiledSound(p, changes)
  {
    hide SoundChange;
  }

  lemma SignersCount(p: Params, expelled: set<NodeId>, qc: QC)
    requires SignedByQuorum(p, expelled, qc)
    ensures SignedByQuorum(p, {}, qc)
  {
    Quorum.SubsetCardinality(SignersOf(p, expelled, qc), SignersOf(p, {}, qc));
  }

  lemma FileableIsSound(p: Params, expelled: set<NodeId>, vc: ViewChange)
    requires Fileable(p, expelled, vc)
    ensures SoundChange(p, vc)
  {
    hide SignedByQuorum;
    if vc.highestQC.Some? {
      SignersCount(p, expelled, vc.highestQC.value);
    }
  }

  // ------------------------------------------------------------------ every run

  lemma ReceivedKeeps(p: Params, s: State, vc: ViewChange)
    requires WellKept(p, s)
    ensures WellKept(p, ReceivedViewChange(p, s, vc))
  {
    hide FiledWell, FiledSound, SignedByQuorum, ReceivedViewChange, Fileable, FiledWith;
    var t := ReceivedViewChange(p, s, vc);
    ReceivesIff(p, s, vc);
    if Fileable(p, s.expelled, vc) {
      FileableIsSound(p, s.expelled, vc);
      FiledWellStays(s, vc, t.viewChanges, t.viewChangeOrder);
      FiledSoundStays(p, s, vc, t.viewChanges, t.viewChangeOrder);
    }
  }

  lemma TimedOutKeeps(p: Params, s: State)
    requires p.Valid() && WellKept(p, s)
    ensures WellKept(p, TimedOut(p, s))
  {
    hide FiledWell, FiledSound, SignedByQuorum, TimedOut, FiledWith;
    var t := TimedOut(p, s);
    TimesOut(p, s);
    assert SoundChange(p, OwnChange(p, s));
    FiledWellStays(s, OwnChange(p, s), t.viewChanges, t.viewChangeOrder);
    FiledSoundStays(p, s, OwnChange(p, s), t.viewChanges, t.viewChangeOrder);
  }

  /** A collected certificate is signed by the quorum that was counted. */
  lemma CollectedIsSigned(p: Params, s: State, votes: seq<Endorsement<Message>>)
    requires CollectedQC(p, s, votes).Some?
    ensures SignedByQuorum(p, {}, CollectedQC(p, s, votes).value)
  {
    hide SignedByQuorum, Kept;
    var qc, b := CollectedQC(p, s, votes).value, s.activeProposal.value;
    var message := VoteMessage(VoteTarget(b.view, b.blockHash, b.parentHash));
    KeptIsValidSigners(message, votes, ActiveRoster(p, s));
    KeptAgain(message, votes, ActiveRoster(p, s));
    QCVerifiesIff(p, s, qc);
    SignersCount(p, s.expelled, qc);
  }

  lemma KeptAgain(message: Message, votes: seq<Endorsement<Message>>, roster: Roster)
    ensures ValidSigners(message, Kept(message, votes, roster), roster) == ValidSigners(message, votes, roster)
  {
    KeptIsValidSigners(message, votes, roster);
    var kept := Kept(message, votes, roster);
    assert forall i | 0 <= i < |kept| :: kept[i] in kept;
    assert Ids(kept) == ValidSigners(message, kept, roster);
  }

  lemma CollectedKeeps(p: Params, s: State, votes: seq<Endorsement<Message>>)
    requires WellKept(p, s)
    ensures WellKept(p, Collected(p, s, votes))
  {
    hide SignedByQuorum, CollectedQC, FiledWell, FiledSound;
    if CollectedQC(p, s, votes).Some? {
      CollectedIsSigned(p, s, votes);
    }
  }

  lemma VotedKeeps(p: Params, s: State, b: Proposal)
    requires p.Valid() && WellKept(p, s)
    ensures WellKept(p, Voted(p, s, b).0)
  {
    hide Voted, SignedByQuorum, FiledWell, FiledSound, GoodParent, VoteMeaning.Fresh;
    VoteEffect(p, s, b);
    AdmissionIff(p, s, b);
    if Admission(p, s, b).None? && b.justify.Some? {
      SignersCount(p, s.expelled, b.justify.value);
    }
    hide Admission;
  }

  lemma AdoptedKeeps(p: Params, s: State, nv: NewView)
    requires WellKept(p, s)
    ensures WellKept(p, AdoptedNewView(p, s, nv))
  {
    hide AdoptedNewView, SignedByQuorum, FiledWell, FiledSound;
    AdoptsIff(p, s, nv);
    if nv.anchorQC.Some? && AnchorHolds(p, s, nv.anchorQC) {
      SignersCount(p, s.expelled, nv.anchorQC.value);
    }
  }

  lemma ProposedKeeps(p: Params, s: State, v: int)
    requires p.Valid() && WellKept(p, s)
    ensures WellKept(p, Proposed(p, s, v))
  {
    hide FiledWell, FiledSound, SignedByQuorum, NewProposal;
  }

  lemma {:induction false} CommitAllApart(s: State, bs: seq<Proposal>)
    ensures var t := CommitAll(s, bs);
      t.view == s.view && t.highestQC == s.highestQC && t.viewChanges == s.viewChanges &&
      t.viewChangeOrder == s.viewChangeOrder
  {
    if bs != [] {
      CommitAllApart(s, bs[..|bs| - 1]);
    }
  }

  lemma AggregatedApart(p: Params, s: State, v: int)
    requires WellKept(p, s)
    ensures WellKept(p, Aggregated(p, s, v))
  {
    hide FiledWell, FiledSound, SignedByQuorum, AggregatedNewView;
  }

  lemma AfterKeeps(p: Params, s: State, c: Call)
    requires p.Valid() && WellKept(p, s)
    ensures WellKept(p, After(p, s, c))
  {
    hide WellKept, Proposed, Voted, Collected, TimedOut, ReceivedViewChange, Aggregated, AdoptedNewView,
         AggregatedNewView, RejectsAnchor, CommitAll;
    match c
    case Propose(v) => ProposedKeeps(p, s, v);
    case VoteOn(b) => VotedKeeps(p, s, b);
    case CollectVotes(votes) => CollectedKeeps(p, s, votes);
    case CommitCheck =>
      CommitAllApart(s, SortByView(Candidates(s, s.blockOrder)));
      SamePartsKept(p, s, CommitChecked(s));
    case Timeout => TimedOutKeeps(p, s);
    case ReceiveViewChange(vc) => ReceivedKeeps(p, s, vc);
    case AggregateNewView(v) => AggregatedApart(p, s, v);
    case AdoptNewView(nv) => AdoptedKeeps(p, s, nv);
    case ProposeNewView(v) =>
      var nv := AggregatedNewView(p, s, v);
      AggregatedApart(p, s, v);
      if nv.Some? {
        AdoptedKeeps(p, Aggregated(p, s, v), nv.value);
        ProposedKeeps(p, AdoptedNewView(p, Aggregated(p, s, v), nv.value), v);
      }
    case Expel(id) => SamePartsKept(p, s, Expelled(s, id));
    case Submit(tx) => SamePartsKept(p, s, Submitted(s, tx));
  }

  lemma SamePartsKept(p: Params, s: State, t: State)
    requires WellKept(p, s)
    requires t.view == s.view && t.highestQC == s.highestQC && t.viewChanges == s.viewChanges
    requires t.viewChangeOrder == s.viewChangeOrder
    ensures WellKept(p, t)
  {
  }

  lemma StartsWellKept(p: Params)
    ensures WellKept(p, InitialState)
  {
  }

  /** In every run each honest node files view changes under their senders, once each, signed, and with
    certificates of a quorum only; so is the highest certificate it has. */
  lemma {:induction false} RunsKeepFiles(d: Deployment, run: seq<Sys>, i: nat, g: NodeId)
    requires d.Valid() && IsRun(d, run) && i < |run| && g in d.honest && g in run[i].nodes
    ensures WellKept(ParamsOf(d, g), run[i].nodes[g])
  {
    hide WellKept, After, CastBy, Deployment.Valid;
    if i == 0 {
      StartsWellKept(ParamsOf(d, g));
    } else {
      assert StepAt(d, run, i - 1);
      var h, c :| StepOf(d, run[i - 1], run[i], h, c);
      RunsKeepFiles(d, run, i - 1, g);
      if g == h {
        AfterKeeps(ParamsOf(d, g), run[i - 1].nodes[g], c);
      }
    }
  }

  // ------------------------------------------------------------------ a view change succeeds

  ghost function ReceiveAll(p: Params, s: State, vcs: seq<ViewChange>): State {
    if vcs == [] then s else ReceivedViewChange(p, ReceiveAll(p, s, vcs[..|vcs| - 1]), vcs[|vcs| - 1])
  }

  /** Everything but the file of view changes. */
  predicate SameButFile(s: State, t: State) {
    t == s.(viewChanges := t.viewChanges, viewChangeOrder := t.viewChangeOrder)
  }

  predicate OnFile(s: State, id: NodeId, v: int) {
    id in s.viewChanges && v in s.viewChanges[id]
  }

  /** What is on file for a member and a view satisfies a property: whatever was there does, and so does
    whatever is received for it. */
  lemma {:induction false} ReceivedOnFile(p: Params, s: State, vcs: seq<ViewChange>, id: NodeId, v: int,
                                          wanted: ViewChange -> bool)
    requires forall vc | vc in vcs && vc.nodeId == id && vc.view == v && Fileable(p, s.expelled, vc) :: wanted(vc)
    requires OnFile(s, id, v) ==> wanted(s.viewChanges[id][v])
    ensures var t := ReceiveAll(p, s, vcs);
      && SameButFile(s, t)
      && (OnFile(s, id, v) ==> OnFile(t, id, v))
      && (OnFile(t, id, v) ==> wanted(t.viewChanges[id][v]))
  {
    if vcs != [] {
      hide Fileable, ReceivedViewChange;
      var init, vc := vcs[..|vcs| - 1], vcs[|vcs| - 1];
      ReceivedOnFile(p, s, init, id, v, wanted);
      ReceivesIff(p, ReceiveAll(p, s, init), vc);
    }
  }

  /** A view change that may be filed is on file once it has been received. */
  lemma {:induction false} ReceivedStays(p: Params, s: State, vcs: seq<ViewChange>, vc: ViewChange)
    requires vc in vcs && Fileable(p, s.expelled, vc)
    ensures OnFile(ReceiveAll(p, s, vcs), vc.nodeId, vc.view)
  {
    hide Fileable, ReceivedViewChange;
    var init, last := vcs[..|vcs| - 1], vcs[|vcs| - 1];
    ReceivedOnFile(p, s, init, vc.nodeId, vc.view, _ => true);
    ReceivesIff(p, ReceiveAll(p, s, init), last);
    if vc != last {
      assert vc in init;
      ReceivedStays(p, s, init, vc);
    }
  }

  lemma {:induction false} ReceiveAllKeeps(p: Params, s: State, vcs: seq<ViewChange>)
    requires WellKept(p, s)
    ensures WellKept(p, ReceiveAll(p, s, vcs))
  {
    hide WellKept, ReceivedViewChange;
    if vcs != [] {
      ReceiveAllKeeps(p, s, vcs[..|vcs| - 1]);
      ReceivedKeeps(p, ReceiveAll(p, s, vcs[..|vcs| - 1]), vcs[|vcs| - 1]);
    }
  }

  /** Does the view change carry a certificate of the view of this one? */
  predicate SameHeight(high: Option<QC>, vc: ViewChange) {
    high.Some? ==> vc.highestQC.Some? && vc.highestQC.value.view == high.value.view
  }

  /** All honest members stand one view below, and their changes to the view are among those received. */
  predicate AllChange(d: Deployment, nodes: map<NodeId, State>, leader: NodeId, v: int, vcs: seq<ViewChange>) {
    && nodes.Keys == d.honest && d.honest <= d.keys.Keys
    && (forall h | h in d.honest :: nodes[h].view == v - 1)
    && (forall h | h in d.honest && h != leader :: OwnChange(ParamsOf(d, h), nodes[h]) in vcs)
  }

  /** A signature of an honest member over a change to the view is over its own. */
  predicate Unforged(d: Deployment, nodes: map<NodeId, State>, v: int, vcs: seq<ViewChange>)
    requires nodes.Keys == d.honest && d.honest <= d.keys.Keys
  {
    forall vc | vc in vcs && vc.nodeId in d.honest && vc.view == v && vc.sig.SignedBy? && vc.sig.key == d.keys[vc.nodeId] ::
      vc.sig == OwnChange(ParamsOf(d, vc.nodeId), nodes[vc.nodeId]).sig
  }

  /** What the leader has on file for an honest member carries a certificate as high as the member's. */
  lemma HonestOnFile(d: Deployment, nodes: map<NodeId, State>, leader: NodeId, v: int, vcs: seq<ViewChange>,
                     s: State, h: NodeId)
    requires AllChange(d, nodes, leader, v, vcs) && Unforged(d, nodes, v, vcs) && h in d.honest && leader in d.honest
    requires WellKept(ParamsOf(d, h), nodes[h]) && v >= 0 && s.expelled == {}
    requires h == leader ==> OnFile(s, h, v)
    requires OnFile(s, h, v) ==> SameHeight(nodes[h].highestQC, s.viewChanges[h][v])
    ensures var t := ReceiveAll(ParamsOf(d, leader), s, vcs);
      SameButFile(s, t) && OnFile(t, h, v) && SameHeight(nodes[h].highestQC, t.viewChanges[h][v])
  {
    hide ReceiveAll;
    var p, own := ParamsOf(d, leader), OwnChange(ParamsOf(d, h), nodes[h]);
    var high := nodes[h].highestQC;
    forall vc | vc in vcs && vc.nodeId == h && vc.view == v && Fileable(p, s.expelled, vc) ensures SameHeight(high, vc) {
      assert vc.sig == own.sig;
    }
    ReceivedOnFile(p, s, vcs, h, v, vc => SameHeight(high, vc));
    if h != leader {
      OwnIsFileable(d, nodes, leader, v, vcs, h);
      ReceivedStays(p, s, vcs, own);
    }
  }

  lemma OwnIsFileable(d: Deployment, nodes: map<NodeId, State>, leader: NodeId, v: int, vcs: seq<ViewChange>, h: NodeId)
    requires AllChange(d, nodes, leader, v, vcs) && h in d.honest && WellKept(ParamsOf(d, h), nodes[h]) && v >= 0
    ensures Fileable(ParamsOf(d, leader), {}, OwnChange(ParamsOf(d, h), nodes[h]))
    ensures OwnChange(ParamsOf(d, h), nodes[h]).view == v
  {
    hide FiledWell, FiledSound;
    if nodes[h].highestQC.Some? {
      SameSigners(d, leader, h, nodes[h].highestQC.value);
    }
    hide SignedByQuorum;
  }

  lemma SameSigners(d: Deployment, g: NodeId, h: NodeId, qc: QC)
    ensures SignedByQuorum(ParamsOf(d, g), {}, qc) <==> SignedByQuorum(ParamsOf(d, h), {}, qc)
  {
    assert SignersOf(ParamsOf(d, g), {}, qc) == SignersOf(ParamsOf(d, h), {}, qc);
  }

  /** The same for what the leader has on file already. */
  predicate UnforgedFile(d: Deployment, nodes: map<NodeId, State>, leader: NodeId, v: int)
    requires nodes.Keys == d.honest && d.honest <= d.keys.Keys && leader in nodes
  {
    forall h | h in d.honest && OnFile(nodes[leader], h, v) ::
      nodes[leader].viewChanges[h][v].sig == OwnChange(ParamsOf(d, h), nodes[h]).sig
  }

  /** The leader after giving up on its view and receiving these view changes. */
  ghost function LeaderAfter(d: Deployment, s: State, leader: NodeId, vcs: seq<ViewChange>): State
    requires ParamsOf(d, leader).Valid()
  {
    ReceiveAll(ParamsOf(d, leader), TimedOut(ParamsOf(d, leader), s), vcs)
  }

  lemma OldFileHeights(d: Deployment, nodes: map<NodeId, State>, leader: NodeId, v: int, vcs: seq<ViewChange>,
                       h: NodeId)
    requires AllChange(d, nodes, leader, v, vcs) && leader in d.honest && UnforgedFile(d, nodes, leader, v)
    requires h in d.honest
    requires ParamsOf(d, leader).Valid() && WellKept(ParamsOf(d, leader), nodes[leader])
    ensures var s1 := TimedOut(ParamsOf(d, leader), nodes[leader]);
      && (h == leader ==> OnFile(s1, h, v))
      && (OnFile(s1, h, v) ==> SameHeight(nodes[h].highestQC, s1.viewChanges[h][v]))
  {
    hide TimedOut, SignedByQuorum, FiledWell;
    TimesOut(ParamsOf(d, leader), nodes[leader]);
    if h != leader && OnFile(nodes[leader], h, v) {
      assert SoundChange(ParamsOf(d, leader), nodes[leader].viewChanges[h][v]);
    }
  }

  /** A change of the member to the view is on file, with a certificate as high as this one. */
  predicate FiledAt(s: State, h: NodeId, v: int, high: Option<QC>) {
    OnFile(s, h, v) && SameHeight(high, s.viewChanges[h][v])
  }

  lemma HonestAreReady(honest: set<NodeId>, nodes: map<NodeId, State>, v: int, t: State)
    requires nodes.Keys == honest && t.expelled == {} && forall h | h in honest :: FiledAt(t, h, v, nodes[h].highestQC)
    ensures honest <= Ready(t, v) && |honest| <= |Ready(t, v)|
  {
    hide SameHeight;
    forall h | h in honest ensures h in Ready(t, v) {
      assert FiledAt(t, h, v, nodes[h].highestQC);
      ReadyIsFiled(t, v, h);
    }
    hide Ready;
    Quorum.SubsetCardinality(honest, Ready(t, v));
  }

  /** Nobody ready carries a certificate above the anchor. */
  lemma AnchorIsHigh(t: State, v: int, a: Option<QC>, h: NodeId)
    requires (forall id :: id in t.viewChangeOrder <==> id in t.viewChanges) && h in Ready(t, v)
    requires IsFirstHighest(Carried(t, v, t.viewChangeOrder), a)
    ensures t.viewChanges[h][v].highestQC.Some? ==> a.Some? && t.viewChanges[h][v].highestQC.value.view <= a.value.view
  {
    var order, cs := t.viewChangeOrder, Carried(t, v, t.viewChangeOrder);
    ReadyIsFiled(t, v, h);
    hide Ready;
    var k :| 0 <= k < |order| && order[k] == h;
    assert cs[k] == t.viewChanges[h][v].highestQC;
  }

  lemma AnchorIsSigned(p: Params, t: State, v: int, a: Option<QC>)
    requires FiledSound(p, t.viewChanges) && IsFirstHighest(Carried(t, v, t.viewChangeOrder), a)
    ensures a.Some? ==> SignedByQuorum(p, {}, a.value)
  {
    hide SignedByQuorum;
    if a.Some? {
      var cs := Carried(t, v, t.viewChangeOrder);
      var k :| 0 <= k < |cs| && cs[k] == a && HighestAt(cs, k);
      var id := t.viewChangeOrder[k];
      ReadyIsFiled(t, v, id);
      assert SoundChange(p, t.viewChanges[id][v]);
    }
  }

  /** Once the honest changes are on file, the leader has a quorum of changes, and the anchor is at least as
    high as every honest certificate and holds. */
  lemma AllReady(d: Deployment, nodes: map<NodeId, State>, leader: NodeId, v: int, t: State, a: Option<QC>)
    requires nodes.Keys == d.honest && leader in d.honest && t.expelled == {} && t.highestQC == nodes[leader].highestQC
    requires |d.honest| >= 2 * d.f + 1 && 3 * |d.honest| >= 2 * d.n
    requires forall h | h in d.honest :: FiledAt(t, h, v, nodes[h].highestQC)
    requires WellKept(ParamsOf(d, leader), t) && IsFirstHighest(Carried(t, v, t.viewChangeOrder), a)
    ensures QuorumReady(ParamsOf(d, leader), t, v) && AnchorHolds(ParamsOf(d, leader), t, a)
    ensures forall h | h in d.honest && nodes[h].highestQC.Some? :: a.Some? && nodes[h].highestQC.value.view <= a.value.view
  {
    hide SignedByQuorum, IsFirstHighest, Ready, FiledSound;
    HonestAreReady(d.honest, nodes, v, t);
    AnchorIsSigned(ParamsOf(d, leader), t, v, a);
    forall h | h in d.honest && nodes[h].highestQC.Some? ensures a.Some? && nodes[h].highestQC.value.view <= a.value.view {
      AnchorIsHigh(t, v, a, h);
      assert FiledAt(t, h, v, nodes[h].highestQC);
    }
  }

  ghost predicate AllKept(d: Deployment, nodes: map<NodeId, State>) {
    forall h | h in nodes :: WellKept(ParamsOf(d, h), nodes[h])
  }

  lemma LeaderFile(d: Deployment, nodes: map<NodeId, State>, leader: NodeId, v: nat, vcs: seq<ViewChange>, h: NodeId)
    requires AllChange(d, nodes, leader, v, vcs) && leader in d.honest && h in d.honest && nodes[leader].expelled == {}
    requires ParamsOf(d, leader).Valid() && AllKept(d, nodes)
    requires Unforged(d, nodes, v, vcs) && UnforgedFile(d, nodes, leader, v)
    ensures var s := LeaderAfter(d, nodes[leader], leader, vcs);
      && s.view == v && s.expelled == {} && s.highestQC == nodes[leader].highestQC && WellKept(ParamsOf(d, leader), s)
      && FiledAt(s, h, v, nodes[h].highestQC)
  {
    hide WellKept, ReceiveAll, TimedOut, Fileable, SameHeight, OnFile, Unforged, UnforgedFile;
    var p, s := ParamsOf(d, leader), nodes[leader];
    assert WellKept(p, s) && WellKept(ParamsOf(d, h), nodes[h]);
    TimesOut(p, s);
    TimedOutKeeps(p, s);
    ReceiveAllKeeps(p, TimedOut(p, s), vcs);
    OldFileHeights(d, nodes, leader, v, vcs, h);
    HonestOnFile(d, nodes, leader, v, vcs, TimedOut(p, s), h);
  }

  /** The leader opens the view on the certificate, which is at least as high as every honest one. */
  ghost predicate Opens(d: Deployment, nodes: map<NodeId, State>, leader: NodeId, v: int, vcs: seq<ViewChange>,
                        a: Option<QC>)
    requires ParamsOf(d, leader).Valid() && nodes.Keys == d.honest && leader in d.honest
  {
    var p, s := ParamsOf(d, leader), LeaderAfter(d, nodes[leader], leader, vcs);
    var t := ProposedNewView(p, s, v);
    && (forall h | h in d.honest && nodes[h].highestQC.Some? :: a.Some? && nodes[h].highestQC.value.view <= a.value.view)
    && ViewOpened(p, s, v, a, t)
  }

  lemma LeaderOpens(d: Deployment, nodes: map<NodeId, State>, leader: NodeId, v: nat, vcs: seq<ViewChange>)
    returns (a: Option<QC>)
    requires AllChange(d, nodes, leader, v, vcs) && leader in d.honest && nodes[leader].expelled == {}
    requires ParamsOf(d, leader).Valid() && AllKept(d, nodes) && d.roster[v % d.n] == leader
    requires Unforged(d, nodes, v, vcs) && UnforgedFile(d, nodes, leader, v)
    requires |d.honest| >= 2 * d.f + 1 && 3 * |d.honest| >= 2 * d.n
    ensures Opens(d, nodes, leader, v, vcs, a)
  {
    hide WellKept, AllKept, LeaderAfter, ProposedNewView, ViewOpened, FiledAt, Unforged, UnforgedFile,
         QuorumReady, AnchorHolds, IsFirstHighest;
    var p, s := ParamsOf(d, leader), LeaderAfter(d, nodes[leader], leader, vcs);
    forall h | h in d.honest ensures FiledAt(s, h, v, nodes[h].highestQC) {
      LeaderFile(d, nodes, leader, v, vcs, h);
    }
    LeaderFile(d, nodes, leader, v, vcs, leader);
    FiledWellOf(p, s);
    a := OpensViewIff(p, s, v);
    AllReady(d, nodes, leader, v, s, a);
  }

  /** Liveness of a view change: in any reachable state in which the honest members alone are enough and all
    stand one view below v, when all of them give up on their view and their changes reach the leader of v,
    which has expelled nobody, then whatever else it receives in between and whatever the faulty members
    have sent it, it opens v: with a proposal on a certificate at least as high as any honest member has. */
  lemma ViewChangeSucceeds(d: Deployment, run: seq<Sys>, i: nat, leader: NodeId, v: nat, vcs: seq<ViewChange>)
    returns (a: Option<QC>)
    requires d.Valid() && IsRun(d, run) && i < |run| && leader in d.honest && d.roster[v % d.n] == leader
    requires |d.honest| >= 2 * d.f + 1 && 3 * |d.honest| >= 2 * d.n
    requires AllChange(d, run[i].nodes, leader, v, vcs) && run[i].nodes[leader].expelled == {}
    requires Unforged(d, run[i].nodes, v, vcs) && UnforgedFile(d, run[i].nodes, leader, v)
    ensures ParamsOf(d, leader).Valid() && Opens(d, run[i].nodes, leader, v, vcs, a)
  {
    hide WellKept, IsRun, Opens, Unforged, UnforgedFile, AllChange;
    KeysOfChange(d, run[i].nodes, leader, v, vcs);
    AllKeptInRun(d, run, i);
    a := LeaderOpens(d, run[i].nodes, leader, v, vcs);
  }

  lemma KeysOfChange(d: Deployment, nodes: map<NodeId, State>, leader: NodeId, v: int, vcs: seq<ViewChange>)
    requires AllChange(d, nodes, leader, v, vcs)
    ensures nodes.Keys == d.honest
  {
  }

  lemma AllKeptInRun(d: Deployment, run: seq<Sys>, i: nat)
    requires d.Valid() && IsRun(d, run) && i < |run| && run[i].nodes.Keys == d.honest
    ensures AllKept(d, run[i].nodes)
  {
    hide WellKept, IsRun;
    forall h | h in run[i].nodes ensures WellKept(ParamsOf(d, h), run[i].nodes[h]) {
      RunsKeepFiles(d, run, i, h);
    }
  }

  lemma FiledWellOf(p: Params, s: State)
    requires WellKept(p, s)
    ensures FiledWell(s.viewChanges, s.viewChangeOrder)
  {
  }
}
