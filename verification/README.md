# Verified models of VAP's consensus, membership, checking and transport cores

VAP is a small agent network: a HotStuff-style consensus with dynamic membership, credentials that
qualify its auditors, gateways and relays that carry its envelopes, and a bounded model checker for
its task life cycle. This project models those cores in Dafny 4.11 and proves what they are for.
`dafny verify dfyconfig.toml` checks all of it.

Objects the program updates in place are classes with the same fields, loops are loops, and each
method is proved against a function on values; the theorems are about these functions and about runs
made of them. Recursions and pure helpers are functions. For each of the main operations a second
account is proved that does not use these functions: when it succeeds, spelled out on the state or on
the history of calls, and what follows over every run.

## What is modelled and proved

**Consensus** (`Quorum`, `Endorse`, `Blocks`, `NodeState`, `ConsensusNode`, `VoteLog`, `Protocol`,
`Ancestry`, `VoteMeaning`, `ViewChanges`, `NodeHistory`, `Commit`, `ChildIndex`, `CommitOrder`, `Standing`,
`Lockstep`, `LockstepRuns`, `Forks`). Any number of nodes, at most f of them faulty, take the node's own
steps in any interleaving on inputs an adversary chooses freely, except that it cannot forge the votes of
honest members. Two blocks committed anywhere, ever, lie on one chain. The argument runs over a global log
of honest votes: three rules about single votes imply that certified blocks cannot conflict, and every
reachable state obeys the rules. Nothing in the program compares a block's view with its parent's; that
certified chains have increasing views, an assumption of the hand proof (PROOFS.md, section 1.1), is
derived. Every node commits in increasing views along one chain, and exactly the blocks for whose child and
grandchild it collected the votes itself. In lockstep runs of the same system, whatever the order of calls
within a phase, everybody moves on exactly as long as no leader packs a nonce committed before, which
distinct nonces guarantee; whoever collects the votes of every view then commits all blocks but the last
two. A node votes for exactly the proposals `VoteMeaning.VotesIff` spells out, so whatever is certified or
committed comes from the leader of its view. A view change succeeds exactly with a quorum of changes on file
and an anchor that holds, and does when all honest members ask for it (`ViewChanges.ViewChangeSucceeds`).

**Recovery** (`Ledger`, `Recovery`, `RestartState`). Through any calls and restarts what was committed stays
committed, read back from the snapshot or by full replay; on a damaged ledger full replay gives exactly the
longest valid prefix. A restarted node stands one view above the last block read back, on which its next
proposal builds, and refuses every proposal up to that view.

**Membership** (`Membership`, `MembershipNode`, `MembershipReplay`, `MembershipQuorums`). Changes committed
at height h take effect at h+2. Replaying a chain in one batch gives the ids and everybody else's keys that
applying it block by block gave, and the node's own key and the quorum numbers under an exact condition
each. At every height the quorum numbers are those of the roster, and two quorums, even one before and one
after a change, share more members than may be faulty.

**Model checker** (`Asmfs`, `TaskHistory`, `ModelChecker`, `Lifecycle`, `Orders`). The breadth-first search
with deduplication is sound, complete, terminating and returns shortest counterexamples, for every list of
scripts and every assertion. What it establishes for two to four actors is proved for every number,
including the sizes of the state spaces its specifications list.

**Transport** (`FrameCodec`, `RelayServer`, `RelayHistory`, `RelayLimits`, `RelayMesh`, `MeshHistory`,
`CrcWords`, `Crc`, `StunFingerprint`, `StunRules`, over `ByteStrings`). The frame decoder does not depend on
how the stream is cut; which frames the relay passes on follows from its events alone, in whose name a
connection may send, who is online, and what fits into the token buckets over every stretch of time;
gateways take in nothing unsigned, and flooding between gateways stops and reaches exactly what is
reachable; the table-driven CRC is the bitwise one and the FINGERPRINT attribute of section 15.5 of RFC 5389
verifies after it is appended.

**Credentials** (`Credentials`, `CredentialRules`). Verification terminates, accepts only trees rooted in
the genesis anchor, and accepts what issuing produced under an exact condition; who may sign and what is
accepted is spelled out both ways.

## Modelling decisions

- A hash is the content it was taken of, a signature is the key and message it was made with, or bytes
  that verify under no key. So hashes do not collide, honest signatures are not forged, and canonical
  JSON is injective.
- Node ids are numbers where only their order and equality matter. Views, heights and counters are
  unbounded integers; token buckets hold reals; clocks, rate-limit verdicts and gate verdicts are inputs.
- Files are sequences of lines that parse or do not. Restarted nodes are not part of the runs agreement
  is claimed for: a restart drops the votes and the lock.
- Maps the program iterates carry their insertion order explicitly.
- The FINGERPRINT functions take the header length as a value, 20 unless given; the model fixes it at 20,
  the length of a STUN header.

## Where the code and its documentation differ

The model follows the code.

- PROOFS.md (rule P3) states that a block is committed exactly if it heads three certified blocks. The commit
  check finds certified children through an index that only a node's own vote collection and a restart fill;
  between restarts it commits exactly the blocks for whose child and grandchild the node collected the votes
  itself (`ChildIndex.CommittableIff`). A node that learnt a certificate from others can hold a certified triple
  and not commit its head (`LockstepRuns.MissedTriple`).
- PROOFS.md (corollary C1) concludes that committed blocks are in view order, a growing prefix of one chain.
  The order holds, over all checks of a node (`CommitOrder.CommitsInOrder`), and so does agreement; prefixes they
  need not be: a node can commit a block whose parent it never commits (`LockstepRuns.CommitsWithGap`), exactly if
  it did not collect the votes for the block itself or lacks the parent (`CommitOrder.ParentCommittedIff`).
- The comment beside the index (phase5/vap-to.mjs:586) says a parent has at most one certified child because each
  view has one leader. Two views can certify two children of one parent, and different nodes index different ones
  (`Forks.TwoCertifiedChildren`). What the index relies on holds all the same: no node ever collects the votes
  for two children of one parent (`ChildIndex.NeverTwoChildren`).
- In the same run collecting votes lowers the node's highest certificate.
- The double-spend check compares a proposal with committed blocks and itself, not with its uncommitted ancestors:
  without any fault one nonce can be committed twice (`LockstepRuns.NonceCommittedTwice`).
- The comment in `restore` (phase5/vap-to.mjs:901-903) says a broken ledger is cut back to a consistent prefix. When
  a snapshot reaches beyond the damage, the rewritten file still has the gap (`Recovery.GapStays`).
- The checker's `interleavings` counts distinct terminal configurations, not interleavings, and is 0
  whenever something is found.
- PROOFS.md (lemma M2) shows for quorums of 2f+1 out of 3f+1 that quorums across a membership change need
  not share an honest member. With the threshold the code recomputes, one join or removal apart they share
  f+1 members of the smaller roster (`Quorum.OverlapAcrossOneChange`). Whether that makes changes safe for
  consensus is not claimed.
- Issuing a generation-0 credential accepts any auditor that claims the genesis role; verification accepts
  only the anchor's own id and key (`Credentials.IssuedVerifiesIff`).

## Model

| member | source | states |
|---|---|---|
| `Protocol.Agreement` | phase5/vap-to.mjs:603-622 | any two blocks committed by any two honest nodes, at any two times of any run with at most f faulty members, lie on one parent chain, and the smaller view is the ancestor |
| `Protocol.RunKeepsInv` | phase5/vap-to.mjs:403-585 | every reachable state keeps the whole invariant: certificates held are backed by a quorum of real votes, votes have increasing views and stay below the lock, the child index names certified direct children, commits head certified triples |
| `Protocol.StepKeepsInv` | phase5/vap-to.mjs:333-841 | one call of any kind, on any input without forged honest votes, keeps that invariant at every node |
| `Protocol.VoteIsLawful` | phase5/vap-to.mjs:403-517 | a vote that passes the safety rule obeys the three rules the safety argument rests on, although views of parent and child are never compared |
| `Protocol.VerifiedIsBacked` | phase5/vap-to.mjs:520-529 | a certificate that verifies names a real block, its view and its parent, and has a quorum of actual voters behind it |
| `Protocol.CertifiedViewsIncrease` | phase5/vap-to.mjs:418-471 | in every reachable state views strictly increase along every parent link whose child is certified; the hand proof assumes this |
| `Protocol.CertificatesFreezeParents` | phase5/vap-to.mjs:473-517 | in every reachable state: one certified block per view, and everything certified later than a certified child extends that child's parent |
| `Protocol.AncestryExactFromCertified` | phase5/vap-to.mjs:563-585 | from a certified block the ancestry test is true if and only if the stored ancestor is a real one: view guard and step bound never cut off a real ancestor |
| `Protocol.CommittableIsFinal` | phase5/vap-to.mjs:590-612 | what the child index leads to is a parent-linked triple of certified blocks |
| `VoteMeaning.VotesIff` | phase5/vap-to.mjs:403-485 | a node votes for exactly these proposals: of the rightful leader of the view, not expelled, hashed and signed over this content; in a view not left and not voted in; on a certified parent that extends the lock and the highest certificate, the carried one counted if it is not lower; with commit transactions only, no key twice and none committed |
| `VoteMeaning.SafetyIff` | phase5/vap-to.mjs:403-485 | the safety rule passes exactly these |
| `VoteMeaning.VoteEffect` | phase5/vap-to.mjs:418-517 | a vote enters its view, records it, stores the block, opens it for votes and locks the parent; a refused proposal leaves at most its certificate behind, namely if it was admitted and is not lower than the highest |
| `VoteMeaning.RefusalIsTrue` | phase5/vap-to.mjs:403-485 | the reason a proposal is refused for is true of it |
| `VoteMeaning.VotesAreLed` | phase5/vap-to.mjs:403-512 | over every run each honest vote is for a block of the leader of its view with distinct commit transactions, and whatever an honest node stores or commits was signed by the leader of its view |
| `VoteMeaning.CertifiedIsLed` | phase5/vap-to.mjs:520-557 | so is every block a certificate can exist for |
| `VoteMeaning.CommittedIsLed` | phase5/vap-to.mjs:603-622 | and every block an honest node commits |
| `ViewChanges.ProposesIff` | phase5/vap-to.mjs:333-400 | a node proposes exactly in views it leads and has not left: on its highest certificate, carried along unless it stands in for one lost in a restart, with the pending transactions in text order, which it then forgets |
| `ViewChanges.ReceivesIff` | phase5/vap-to.mjs:728-748 | a view change is filed, under its sender and view, exactly if the sender is a member not expelled who signed view and anchor and the certificate is signed by a quorum; nothing else changes |
| `ViewChanges.TimesOut` | phase5/vap-to.mjs:694-713 | giving up moves on by one view and files a signed change to it that carries the highest certificate; nothing else changes |
| `ViewChanges.AggregatesIff` | phase5/vap-to.mjs:754-775 | aggregation succeeds exactly if the view is not negative and the members not expelled with a change to it on file are more than twice the faults and two thirds of all |
| `ViewChanges.AnchorIsFirstHighest` | phase5/vap-to.mjs:754-775 | the anchor is the first filed of the highest certificates they carry, none if they carry none |
| `ViewChanges.AdoptsIff` | phase5/vap-to.mjs:780-794 | an anchor is adopted, as highest certificate and as that of its block, exactly if a quorum signed it and it is not lower than the highest |
| `ViewChanges.OpensViewIff` | phase5/vap-to.mjs:799-812 | the leader of a view it has not left opens it exactly with a quorum of changes on file and an anchor that verifies and is not lower than its own highest certificate; the proposal stands on that anchor |
| `ViewChanges.RunsKeepFiles` | phase5/vap-to.mjs:694-794 | over every run a node files each change under its sender, once, signed and with certificates of a quorum only |
| `ViewChanges.ViewChangeSucceeds` | phase5/vap-to.mjs:694-812 | liveness of a view change: from every reachable state in which the honest members are enough and stand one view below, once all have given up and their changes have reached the leader, among any others, it proposes on a certificate at least as high as that of any honest member |
| `NodeHistory.CollectsIff` | phase5/vap-to.mjs:532-557 | votes make a certificate exactly if a quorum of members not expelled signed exactly the open proposal; it lists one vote of each, becomes the highest whatever was before, and its block becomes the child on record for its parent |
| `NodeHistory.SubmitsIff` | phase5/vap-to.mjs:333-348 | a transaction is taken exactly if it is a commit whose key is neither committed nor that of a pending one |
| `NodeHistory.PoolKept` | phase5/vap-to.mjs:333-400 | through every life of calls and restarts the mempool holds commit transactions only, no key twice |
| `NodeHistory.OwnProposals` | phase5/vap-to.mjs:350-400 | so every proposal of a node, in any life, carries distinct commit transactions |
| `NodeHistory.ExpelledTold` | phase5/vap-to.mjs:831-836 | in every life exactly those are expelled that some call has expelled since the object was made |
| `VoteLog.OneCertifiedBlockPerView` | PROOFS.md:66-104 | two certified blocks of one view are equal |
| `VoteLog.ParentCertifiedInSmallerView` | phase5/vap-to.mjs:459-471 | the parent of a certified block is genesis or certified in a smaller view, by quorum intersection in time order |
| `VoteLog.AncestorsCertifiedInSmallerViews` | phase5/vap-to.mjs:459-471 | every proper ancestor of a certified block but genesis is certified in a smaller view |
| `VoteLog.LockFreezing` | phase5/vap-to.mjs:473-517 | once a block has a certified child, every block certified in a later view extends it |
| `VoteLog.FinalBlocksAgree` | phase5/vap-to.mjs:603-622 | two blocks that each head a certified three-chain lie on one parent chain |
| `VoteLog.FinalBlocksInViewOrder` | phase5/vap-to.mjs:603-622 | of two such blocks the one with the smaller view is the ancestor, and only that one |
| `Quorum.QuorumOverlap` | phase5/vap-to.mjs:211-259 | for every n and f two sets of max(2f+1, ceil(2n/3)) members out of n share at least f+1 |
| `Quorum.HonestOverlap` | phase5/vap-to.mjs:256-259 | two quorums share an honest member when at most f are faulty |
| `Quorum.OverlapAcrossOneChange` | phase6/vap-to-membership.mjs:193-199 | one join or removal apart, an old and a new quorum share at least f+1 members of the smaller roster, f being recomputed from it |
| `Quorum.OverlapAcrossOneChangeIsTight` | phase6/vap-to-membership.mjs:193-199 | and there are rosters where they share no more |
| `Quorum.QuorumsMeetIff` | PROOFS.md:107-117 | rosters of sizes 3f+1 and 3g+1: every 2f+1 members of one meet every 2g+1 of the other if and only if the rosters share f+g+1 |
| `Ancestry.IsDescendantIsSound` | phase5/vap-to.mjs:563-585 | a positive ancestry test is never wrong, in any block store |
| `Ancestry.IsDescendantExactly` | phase5/vap-to.mjs:563-585 | the test is positive exactly for genesis, the block itself, and stored ancestors whose chain is stored with strictly decreasing views at or above the ancestor's |
| `ChildIndex.CommittableIff` | phase5/vap-to.mjs:590-622 | the exact commit condition, for every node in every run: a block stored, certified and not yet committed is committed by the next check if and only if the node itself collected the votes for a child of the block and for a child of that child; certificates learnt from others do not count |
| `ChildIndex.NeverTwoChildren` | phase5/vap-to.mjs:532-557 | in no run does a node collect the votes for two children of one parent, although nothing in the code compares them |
| `ChildIndex.EntriesStay` | phase5/vap-to.mjs:590-593 | no entry of the child index is ever overwritten or lost |
| `ChildIndex.IndexIsHistory` | phase5/vap-to.mjs:532-557 | by induction over the run: the index holds exactly the blocks whose votes the node collected, each under its parent |
| `ChildIndex.IndexCompleteIff` | phase5/vap-to.mjs:553-600 | the index misses no stored certified block if and only if the node collected the votes for all of them itself |
| `ChildIndex.CollectedScanIsFull` | phase5/vap-to.mjs:590-622 | for such a node the candidates of the next check are exactly the heads of certified parent-linked triples that a scan of all blocks finds |
| `CommitOrder.CommitsInOrder` | phase5/vap-to.mjs:603-655 | in every run, at every node and over any number of checks, views strictly increase along the committed list and each block extends all committed before it |
| `CommitOrder.NothingRolledBack` | PROOFS.md:98-102 | the committed list of a node only ever grows at its end |
| `CommitOrder.ParentCommittedIff` | phase5/vap-to.mjs:590-622 | right after a check the parent of a committed block is committed too if and only if the node has it stored and collected the votes for the block itself |
| `CommitOrder.GaplessIff` | PROOFS.md:98-102 | right after a check the committed list is a gapless prefix of a chain from genesis if and only if that holds of all committed blocks whose parent is not genesis |
| `Commit.CommitCheckCommitsExactly` | phase5/vap-to.mjs:603-622 | one check commits exactly the committable blocks, each once, in view order |
| `Commit.CommitCheckCommitsAChain` | phase5/vap-to.mjs:603-622 | in every reachable state the blocks one check commits extend one another in the order committed |
| `NodeHistory.SortStable` | phase5/vap-to.mjs:614-615 | sorting candidates by view leaves those of one view in the order they were stored |
| `Commit.UnindexedNodeCommitsNothing` | phase5/vap-to.mjs:597-612 | with an empty child index a commit check does nothing, whatever certificates are held |
| `Commit.NodeThatNeverCollectsCommitsNothing` | phase5/vap-to.mjs:532-557 | a node that learns certificates only from proposals and new views never commits in any run |
| `Lockstep.ProgressIff` | phase5/vap-to.mjs:367-622 | the exact condition of progress when the honest members make a quorum, over lockstep runs in which clients submit to any node, the leader proposes, all vote or refuse to, any nodes (among them the next leader) collect vote lists that lack no honest vote cast, and all check for commits, in any order within a phase: every view takes every node one block further if and only if no leader packs a nonce some node has committed |
| `Lockstep.Progress` | phase5/vap-to.mjs:367-622 | then every honest node has committed exactly the blocks for whose child and grandchild it collected the votes, linked from genesis, and each block is its leader's sorted mempool |
| `Lockstep.AlwaysCollecting` | phase5/vap-to.mjs:367-622 | so nodes that collect in every view all commit exactly the blocks of all views but the last two |
| `Lockstep.DistinctNoncesProgress` | phase5/vap-to.mjs:367-622 | with pairwise distinct nonces, sent to whichever nodes and in whichever views, that condition holds: in every view all vote, the votes cast add up to a certificate and the run progresses |
| `Lockstep.EverybodyCommits` | phase5/vap-to.mjs:367-622 | with distinct nonces and everybody collecting in every view, after k views all honest nodes have committed exactly the first k-2 blocks, identical and parent-linked |
| `Lockstep.BlocksCarryInboxes` | phase5/vap-to.mjs:333-364 | when transactions go to the leader of the view, block k carries exactly those of view k, sorted |
| `LockstepRuns.LockstepGoesOn` | phase5/vap-to.mjs:367-622 | without faults every such run can go on by a view with any fresh transactions and anybody to collect its votes, so lockstep runs of every length and shape exist |
| `LockstepRuns.TripleMissedIff` | PROOFS.md:28 | on top of every block but the last three every node in step holds a certified triple; it has committed the block exactly if it collected the votes for both others itself, and else will not by checking |
| `LockstepRuns.MissedTriple` | PROOFS.md:28 | from four members on there is a run without faults after which one member, which voted for every block, holds the triple and has committed nothing, while all others have committed two blocks |
| `LockstepRuns.CommitsWithGap` | PROOFS.md:98-102 | from three members on there is a run without faults after which one member has committed the second block and not the first |
| `LockstepRuns.NonceCommittedTwice` | phase5/vap-to.mjs:124-137 | from two members on there is a run without faults in which a transaction sent to the leaders of the first two views is on both blocks everybody commits |
| `Forks.TwoCertifiedChildren` | phase5/vap-to.mjs:532-593 | whenever a quorum leaves out a member, there is a run without faults in which two children of genesis are certified, two nodes index one each, and the later collection lowers the highest certificate of its node, which holds both |
| `Lockstep.RoundMovesOnIff` | phase5/vap-to.mjs:367-622 | one view, from any reachable state in which all nodes stand at the end of a chain, takes all of them one block further if and only if the leader packs no nonce some node has committed |
| `Lockstep.RoundMovesOn` | phase5/vap-to.mjs:367-622 | then all vote, the votes cast certify the block at everybody who collects, each node commits the third last block if it collected the votes for the last two, and only the leader's mempool is emptied |
| `Lockstep.RoundVotesIff` | phase5/vap-to.mjs:403-517 | in any case exactly the nodes vote that have committed nothing of what the leader packs |
| `Lockstep.PerformEffect` | phase5/vap-to.mjs:403-557 | within a phase each node ends where its own call takes it, whatever the order of the calls |
| `Blocks.AncestorsAreLinear` | phase5/vap-to.mjs:92-103 | two ancestors of one block are comparable |
| `Blocks.ExtendsAntisymmetric` | phase5/vap-to.mjs:92-103 | two blocks that extend each other are equal: parent links have no cycle |
| `Blocks.ExtendsTransitive` | phase5/vap-to.mjs:92-103 | extending is transitive |
| `Endorse.CollectQC` | phase3/endorse-core.mjs:213-268 | aggregation succeeds exactly if the roster members with at least one valid signature in the input reach the threshold; kept and ignored entries add up to the input |
| `Endorse.KeptIsValidSigners` | phase3/endorse-core.mjs:213-268 | one entry is kept per roster member with a valid signature, and nothing else |
| `Endorse.KeptAreFirst` | phase3/endorse-core.mjs:213-268 | each entry kept is the first valid one of its member in the input |
| `Endorse.CountIgnoresOrderAndJunk` | phase3/endorse-core.mjs:213-268 | inputs with the same valid entries count the same members, whatever the order, duplicates and junk |
| `Endorse.VerifyQC` | phase3/endorse-core.mjs:280-377 | verification passes if and only if numbers match the roster, every entry is valid, unrepeated and qualified, the count reaches two thirds and the gates pass |
| `Endorse.AggregatedCertificateIsAccepted` | phase3/endorse-core.mjs:213-377 | what aggregation produced passes verification if and only if the gates pass and all signers are qualified |
| `ConsensusNode.Node.constructor` | phase5/vap-to.mjs:199-310 | a new node is in the initial state |
| `ConsensusNode.Node.SubmitTx` | phase5/vap-to.mjs:333-348 | the mempool takes a commit transaction exactly if its nonce is neither committed nor pending |
| `ConsensusNode.Node.Propose` | phase5/vap-to.mjs:367-400 | proposes exactly in views it leads and has not left; signs and stores a block on the highest certificate that carries the sorted mempool and empties it |
| `ConsensusNode.Node.PackProposal` | phase5/vap-to.mjs:350-364 | the proposal is hashed and signed over its content and carries the highest certificate unless that is a stand-in from a restart |
| `ConsensusNode.Node.IsDescendant` | phase5/vap-to.mjs:563-585 | the bounded backward loop answers what the unbounded walk answers; the step bound never matters |
| `ConsensusNode.Node.CheckDoubleSpend` | phase5/vap-to.mjs:124-137 | the loop finds the first offending transaction |
| `ConsensusNode.Node.VerifyQC` | phase5/vap-to.mjs:520-529 | counts signatures of members not expelled against the threshold |
| `ConsensusNode.Node.SafetyRule` | phase5/vap-to.mjs:403-485 | checks in the code's order and adopts a carried certificate even if the proposal is refused afterwards |
| `ConsensusNode.Node.Vote` | phase5/vap-to.mjs:488-517 | votes for exactly the votable proposals; a passing one is stored, its view marked, the view raised and the lock moved to the parent; a refused one changes nothing but an adopted certificate |
| `ConsensusNode.Node.CollectVotes` | phase5/vap-to.mjs:532-557 | enough votes for the active proposal make a certificate, which becomes the highest unconditionally and is indexed under the parent |
| `ConsensusNode.Node.CommitCheck` | phase5/vap-to.mjs:603-622 | commits candidates in stable view order, skipping hashes committed meanwhile |
| `ConsensusNode.Node.CommitBlock` | phase5/vap-to.mjs:625-655 | height, hashes, nonces, ledger line and every hundredth snapshot advance together |
| `ConsensusNode.Node.OnTimeout` | phase5/vap-to.mjs:694-713 | the view advances by one and a signed view change with the highest certificate is filed |
| `ConsensusNode.Node.ReceiveViewChange` | phase5/vap-to.mjs:728-748 | files a view change exactly if sender, view, signature and carried certificate check |
| `ConsensusNode.Node.AggregateNewView` | phase5/vap-to.mjs:754-775 | succeeds exactly with a quorum of changes to the view on file; the highest certificate among them is the anchor |
| `ConsensusNode.Node.AdoptNewView` | phase5/vap-to.mjs:780-794 | adopts an anchor exactly if it verifies and is not lower than the highest certificate held |
| `ConsensusNode.Node.ProposeNewView` | phase5/vap-to.mjs:799-812 | aggregates, adopts, then proposes on the anchor; what it returns is open for votes in that view |
| `ConsensusNode.Node.Restore` | phase5/vap-to.mjs:843-962 | the node is rebuilt from the snapshot and the ledger, which is cut back if its chain breaks, and stands one view above the last block, or where it was if there is none |
| `ConsensusNode.Node.ReplayLedger` | phase5/vap-to.mjs:874-897 | replay stops at the first record that does not continue the chain |
| `ConsensusNode.Node.CheckSnapshot` | phase5/vap-to.mjs:852-872 | a snapshot is used exactly if it is a hash chain from genesis no longer than the ledger |
| `NodeState.Anchor` | phase5/vap-to.mjs:757-769 | the anchor is one of the certificates filed and none filed is higher |
| `NodeState.SortTxs` | phase5/vap-to.mjs:111-121 | packing permutes the mempool, losing and duplicating nothing, so that no two neighbours are out of order by canonical text |
| `NodeHistory.PackedBySender` | phase5/vap-to.mjs:111-121 | of two transactions the one whose sender's name is smaller where the names first differ is packed first, whatever the nonces |
| `NodeHistory.PackedByNonce` | phase5/vap-to.mjs:111-121 | those of one sender by nonce |
| `NodeState.Candidates` | phase5/vap-to.mjs:604-613 | exactly the committable stored blocks are candidates |
| `Recovery.RestartRestoresCommits` | phase5/vap-to.mjs:625-962 | whatever calls and earlier restarts a node went through, a fresh node restarted on its files has the same committed blocks, hashes, nonces and last hash, with or without the snapshot |
| `Recovery.CommitsSurvive` | phase5/vap-to.mjs:625-962 | over any life of calls and restarts, in place or afresh, no committed block is lost or moved |
| `Recovery.LifeKeepsLedger` | phase5/vap-to.mjs:625-962 | after every sequence of calls and restarts ledger and snapshot mirror the committed blocks |
| `Recovery.RecoveredIsCommitted` | phase5/vap-to.mjs:843-897 | snapshot path and full replay agree, and neither cuts an intact ledger |
| `Recovery.RecoveredIsLongestPrefix` | phase5/vap-to.mjs:161-181 | on any file, damaged in any way, full replay returns exactly the longest prefix of parsable lines that forms a signed hash chain |
| `Recovery.SecondRestartAgrees` | phase5/vap-to.mjs:898-918 | restarting again on the file the first restart left gives the same blocks and cuts nothing |
| `Recovery.TornLineTruncates` | phase5/vap-to.mjs:161-181 | tearing line j of an intact ledger loses exactly the blocks from j on |
| `Recovery.SnapshotOverTear` | phase5/vap-to.mjs:850-897 | a snapshot that is still usable and reaches beyond the tear saves exactly the blocks it holds; otherwise the loss is the same as without it |
| `Recovery.GapStays` | phase5/vap-to.mjs:901-918 | in the first case the file the restart leaves still has the gap: full replay of it gives the blocks before the tear only |
| `Recovery.AppendAfterRestart` | phase5/vap-to.mjs:147-150 | blocks committed after a restart, one or more, survive the next one if and only if the first restart rewrote the file or the file ended cleanly; otherwise the first new record joins the unterminated line and all are lost |
| `Recovery.RestartForgetsVotes` | phase5/vap-to.mjs:919-928 | a restart drops all voted views and the lock |
| `RestartState.ValuesAre` | phase5/vap-to.mjs:161-181 | reading goes line by line: blank and torn lines are skipped, everything that is JSON counts |
| `RestartState.RecoveredIs` | phase5/vap-to.mjs:843-897 | from the blocks of the snapshot, if it is as long as it says, no longer than the file and linked and hashed right, or from none, exactly the records are taken up that have the right height and predecessor and hold a block hashed and signed right, up to the first that has not |
| `RestartState.ResumesIn` | phase5/vap-to.mjs:919-960 | the state resumed in, for any file and snapshot: one view above the last block read back, that block highest certified by a stand-in and last committed, exactly the blocks read back stored and certified and each the child of its parent unless a later one is; votes, lock and mempool gone, expulsions and view changes kept |
| `RestartState.RefusesOldViews` | phase5/vap-to.mjs:411-959 | after a restart that reads back some block every proposal of a view up to its view is refused |
| `RestartState.NextProposalAfterRestart` | phase5/vap-to.mjs:350-400 | the next proposal stands on that block, without a certificate, and comes in the first views above it that the node leads |
| `RestartState.RestartCertifiesCommits` | phase5/vap-to.mjs:919-960 | over any life, a restart on intact files certifies and stores exactly the blocks committed before and files them under their parents |
| `NodeHistory.SnapshotKept` | phase5/vap-to.mjs:645-681 | through every life the snapshot is that of the last whole hundred of the committed blocks, and there is one from the hundredth on |
| `NodeHistory.FilesKept` | phase5/vap-to.mjs:625-681 | through every life line k of the ledger is committed block k without its certificate, with height and predecessor, and so are the blocks of the snapshot |
| `ModelChecker.Search` | asmfs/bmc-checker.mjs:309-396 | not found: every reachable configuration passes, `nodes` is their number, `interleavings` the number of terminal ones and no unknown operation can be met; found: the trace is a real run of minimal length; at most one expansion goes beyond the limit; it always terminates |
| `ModelChecker.Expand` | asmfs/bmc-checker.mjs:355-392 | advancing one node queues exactly its unseen successors, at most one per actor, and its weight pays for theirs |
| `ModelChecker.ShallowSeen` | asmfs/bmc-checker.mjs:345-392 | breadth first: everything reachable in d steps has been seen before anything deeper is expanded |
| `ModelChecker.FoundIsShortest` | asmfs/bmc-checker.mjs:375-390 | no violating run is shorter than the one returned |
| `ModelChecker.FoundExplored` | asmfs/bmc-checker.mjs:384-390 | a search that finds something has seen all configurations closer than the finding and always reports 0 interleavings |
| `ModelChecker.NothingLeft` | asmfs/bmc-checker.mjs:395-396 | with an empty queue the configurations seen are exactly the reachable ones |
| `ModelChecker.BuildTrace` | asmfs/bmc-checker.mjs:377-383 | following parents yields the recorded steps in order |
| `ModelChecker.NodeRun` | asmfs/bmc-checker.mjs:364-383 | the steps recorded along a node's parents are those of a real schedule, all of known operations |
| `ModelChecker.Replay` | asmfs/bmc-checker.mjs:399-411 | re-executes the recorded operations by pid and checks the end as if all scripts had ended; a pid no actor has and an unknown operation throw |
| `ModelChecker.ReplayedIff` | asmfs/bmc-checker.mjs:399-411 | and nothing else does |
| `ModelChecker.ReplayReproduces` | asmfs/bmc-checker.mjs:399-411 | the trace of any run of known operations replays to the memory the run ended with if every recorded pid leads back to the actor that moved |
| `ModelChecker.DistinctPidsResolve` | asmfs/bmc-checker.mjs:403 | with distinct pids that holds of every run |
| `ModelChecker.CounterexampleReplays` | asmfs/bmc-checker.mjs:399-411 | a counterexample whose pids lead back to their actors replays to its final task and world, and to its reason if the assertion ignores positions |
| `ModelChecker.FoundReplays` | asmfs/bmc-checker.mjs:364-411 | with distinct pids every counterexample of the search does |
| `ModelChecker.SharedPidMisreplays` | asmfs/bmc-checker.mjs:403-407 | with a shared pid it need not |
| `Asmfs.Machine.Step` | asmfs/bmc-checker.mjs:182-292 | all ten operations, in place, agree with the transition function the interleaving theorems are about |
| `Asmfs.Machine.Adopt` | asmfs/bmc-checker.mjs:222-247 | wins, and takes the lock, only over a dead holder of a task neither adopted nor done |
| `Asmfs.Machine.Finalize` | asmfs/bmc-checker.mjs:248-263 | the first finalize wins and sets the exit code, later ones change nothing |
| `Asmfs.RunLength` | asmfs/bmc-checker.mjs:361-363 | the number of steps of a run shows in the positions it ends at |
| `TaskHistory.StepTold` | asmfs/bmc-checker.mjs:142-292 | each operation has the outcome the state allows, spelled out (an adoption wins exactly over a holder whose process is gone, of a task neither adopted nor done), and for each part of the task, the process table and the local numbers what becomes of it |
| `TaskHistory.MarkersTold` | asmfs/bmc-checker.mjs:182-292 | after any run a marker is up exactly if some recorded step put it up that no later one took back, and the lock is held by whoever claimed it or adopted the task last |
| `Lifecycle.OneWinner` | asmfs/bmc-checker.mjs:182-292 | for any scripts and interleaving at most one finalize and one adoption win, and an exit code is there exactly when the task is done |
| `Lifecycle.ExitCodeStays` | asmfs/bmc-checker.mjs:248-263 | once done, no step clears it or overwrites the exit code |
| `Lifecycle.ReuseIsRejected` | asmfs/bmc-checker.mjs:222-247 | while the lock's pid belongs to another process nobody adopts, whatever the other actors run |
| `Lifecycle.AppendedInOrder` | asmfs/bmc-checker.mjs:276-282 | atomically appended events are numbered 1, 2, 3, ... in every interleaving |
| `Lifecycle.ClashPossibleIff` | asmfs/bmc-checker.mjs:264-275 | numbering by reading first and writing later clashes in some interleaving if and only if there are two actors |
| `Lifecycle.ClashCosts` | asmfs/bmc-checker.mjs:699-738 | a clash takes at least four steps, and after exactly four both events are number 1 |
| `Lifecycle.FamilyIsReachSet` | asmfs/bmc-checker.mjs:309-396 | for scripts whose first step decides, the reachable configurations are exactly the start and, per first mover, all positions where it has moved |
| `Lifecycle.FamilyCounts` | asmfs/bmc-checker.mjs:309-396 | there are 1 + n*L*(L+1)^(n-1) of them, n of them terminal, for n actors with L steps |
| `Lifecycle.CheckE1` | asmfs/bmc-checker.mjs:467-521 | checking E-1 passes for every number of actors and reports 1 + 2n*3^(n-1) nodes and n outcomes |
| `Lifecycle.CheckE2` | asmfs/bmc-checker.mjs:523-578 | checking E-2 passes for every number of actors and reports 1 + n*2^(n-1) nodes and n outcomes |
| `Lifecycle.CheckE4Naive` | asmfs/bmc-checker.mjs:693-738 | from two actors on the naive numbering is always refuted by a four-step run ending in the numbers 1, 1 that replays to the same end |
| `Orders.CheckE3` | asmfs/bmc-checker.mjs:645-671 | checking the concurrent part of E-3 passes from one adopter on and reports 2^n nodes and a single outcome: the pid is reused and nobody adopts |
| `Orders.CheckE4Fixed` | asmfs/bmc-checker.mjs:740-763 | checking the repaired E-4 passes for every number of actors and reports n! outcomes, one per order of appending |
| `Orders.RunsArrange` | asmfs/bmc-checker.mjs:276-282 | with one appending step each, the runs are exactly the orders without repetition, and the events show which |
| `Orders.ArrangementsCount` | asmfs/specs/E-4.json:43 | there are n(n-1)...(n-k+1) of length k, so n! complete ones |
| `Orders.SettledIsReachSet` | asmfs/bmc-checker.mjs:309-396 | where any first step leads to one memory that no later step changes, the reachable configurations are the start and all other positions with that memory |
| `MembershipReplay.ReplayAgreesIff` | phase6/vap-to-membership.mjs:877-958 | for every chain and initial membership batch replay and block-by-block application agree on expulsions, waiting changes and well-typed nonces; on roster and key table if and only if every refused rotation of the node's own key was followed by another own operation or asked for the key still held; on n, f and threshold if and only if they were right before, or nothing is in force, or something was not refused; on recorded outcomes if and only if nothing was refused |
| `MembershipReplay.MembersAgreeIff` | phase6/vap-to-membership.mjs:877-958 | so the memberships are equal exactly under the first two conditions together |
| `MembershipReplay.OnlyOwnKeyDiffers` | phase6/vap-to-membership.mjs:929-958 | whatever was refused, replay gets the same ids in the same places and the same keys for everybody but the node itself |
| `MembershipReplay.FoldsDifferInMissedKey` | phase6/vap-to-membership.mjs:253-298 | the replayed tables are the live ones with the last key asked for in vain put in place of the own key |
| `MembershipReplay.HoldsIsTableKey` | phase6/vap-to-membership.mjs:281-283 | on a consistent membership the key still held is the one in the key table |
| `MembershipReplay.UsableOwnKeysAgree` | phase6/vap-to-membership.mjs:877-958 | they agree whenever every rotation of the node's own key is to a usable key |
| `MembershipReplay.UnusableKeyDiverges` | phase6/vap-to-membership.mjs:266-289 | a rotation of the own key to an unusable one is dropped live but taken up by replay; the check before a vote refuses it today, so only older blocks carry one |
| `MembershipReplay.LastBlockDoesNotCount` | phase6/vap-to-membership.mjs:311-322 | the membership at a height depends only on the blocks up to two below it |
| `MembershipReplay.LiveShape` | phase6/vap-to-membership.mjs:662-673 | a live node has applied the changes of all blocks but the last, in order; those of the last wait; expulsions and nonces count at once |
| `MembershipReplay.ReplayedShape` | phase6/vap-to-membership.mjs:904-927 | a replayed node likewise, from one pass and one sort |
| `MembershipReplay.SortMovesNothing` | phase6/vap-to-membership.mjs:920-925 | sorting by activation height leaves the scheduling order as it is |
| `MembershipReplay.ChangedKeepsConsistent` | phase6/vap-to-membership.mjs:253-298 | a join adds a missing id, a removal drops it, a rotation replaces its key, and the roster stays sorted and in step with the key table |
| `MembershipReplay.RosterStaysConsistent` | phase6/vap-to-membership.mjs:253-298 | so it is at every height |
| `MembershipQuorums.LiveNumbersProper` | phase6/vap-to-membership.mjs:193-309 | at every height, once a change that cannot be refused is in force, 3f < n <= 3f+3 for the roster size n and the threshold is the least number of votes above 2f and not below two thirds of it |
| `MembershipQuorums.ReplayedNumbersProper` | phase6/vap-to-membership.mjs:193-958 | likewise after a replay, once any change is in force |
| `MembershipQuorums.QuorumsShareAtEveryHeight` | phase6/vap-to-membership.mjs:193-199 | so any two sets of `threshold` members, live or replayed, share at least f+1 |
| `MembershipQuorums.QuorumsShareAcrossChange` | phase6/vap-to-membership.mjs:193-309 | with the thresholds the node has before and after any one change, taken or refused, an old and a new quorum share f+1 members, f being the smaller budget |
| `MembershipQuorums.QuorumsShareAcrossReplayedChange` | phase6/vap-to-membership.mjs:193-958 | likewise for a change replayed |
| `MembershipQuorums.ExpelledAtOnce` | phase6/vap-to-membership.mjs:877-918 | on a live node and after a replay exactly those are expelled whom a slash or expulsion in some committed block names; the nonces are those of all membership transactions live, and of the well-typed ones after a replay |
| `MembershipQuorums.LogExplained` | phase6/vap-to-membership.mjs:311-322 | the live log schedules exactly the changes on the chain at their heights and notes exactly the removals as expulsions at once; a replay notes the removals only |
| `MembershipQuorums.OutcomesReported` | phase6/vap-to-membership.mjs:253-309 | one outcome per change in force, in order: refused with nothing changed, or applied with the size, budget and threshold of the roster it led to |
| `MembershipNode.Node.UpdateRoster` | phase6/vap-to-membership.mjs:253-298 | the roster and key table of a change, shared by the live and the replay path |
| `MembershipNode.Node.ApplyRosterChange` | phase6/vap-to-membership.mjs:253-309 | applies a change, after which the numbers are those of the roster, or refuses an unusable own key, and logs which |
| `MembershipNode.Node.ApplyReplayRosterChange` | phase6/vap-to-membership.mjs:929-958 | applies a change without parsing keys, after which the numbers are those of the roster |
| `MembershipNode.Node.ApplyDueChanges` | phase6/vap-to-membership.mjs:662-673 | applies what has come due in scheduling order and marks it |
| `MembershipNode.Node.CommitBlock` | phase6/vap-to-membership.mjs:879-893 | schedules the block's changes, expels at once, then applies what is due |
| `MembershipNode.Node.ReplayMembership` | phase6/vap-to-membership.mjs:904-927 | collects all changes, applies those due in sorted order and keeps the rest |
| `MembershipNode.Node.Restore` | phase6/vap-to-membership.mjs:960-974 | resets the bookkeeping, not the roster, and replays |
| `MembershipNode.CommitThenRestore` | phase6/vap-to-membership.mjs:879-974 | a second node restoring the chain ends with the first one's expulsions, and with its membership exactly under those two conditions |
| `FrameCodec.RoundTrip` | phase4/relay-server.mjs:55-96 | any messages within the size limit, encoded, concatenated and cut anywhere, come out exactly and in order, with nothing left over |
| `FrameCodec.ChunksDoNotMatter` | phase4/relay-server.mjs:65-96 | for any byte stream the frames reported and the bytes kept do not depend on the cuts |
| `FrameCodec.DecodeSplit` | phase4/relay-server.mjs:72-93 | cutting a stream in two changes nothing but repeated refusals |
| `FrameCodec.FrameDecoder.Push` | phase4/relay-server.mjs:72-93 | the buffering loop reports and keeps exactly what decoding kept bytes plus chunk yields |
| `FrameCodec.OversizeStalls` | phase4/relay-server.mjs:75-80 | a frame over the limit is never consumed: from then on only refusals are reported |
| `FrameCodec.GetsThroughIff` | phase4/relay-server.mjs:75-91 | a message gets through if and only if it is within the limit |
| `FrameCodec.BytesConserved` | phase4/relay-server.mjs:81-91 | frames handed on and bytes kept add up to the bytes received |
| `FrameCodec.EncodedIs` | phase4/relay-server.mjs:55-63 | encoding fails exactly from four gigabytes on; otherwise four bytes, highest first, announce the payload that follows |
| `FrameCodec.DecodedIs` | phase4/relay-server.mjs:65-96 | for any bytes: each frame reported is as long as it announces, within the limit, and reported as what its payload parses to or as bad; what is kept starts with no complete frame; a refusal is reported exactly if it announces too much |
| `RelayServer.NamesKeepTheirKeys` | phase4/relay-server.mjs:223-268 | with takeover authentication a name keeps the key of its first registration through takeovers, closed connections and registrations afresh |
| `RelayServer.GlobalBandwidth` | phase4/relay-server.mjs:289-306 | over any stretch of time the bytes forwarded fit into the tokens left plus what flowed in |
| `RelayServer.BurstAndRate` | phase4/relay-server.mjs:164-171 | from the start at most one burst plus the rate times the time |
| `RelayHistory.RoutableIff` | phase4/relay-server.mjs:223-284 | from an empty relay, on its events alone: a frame is let through to the limits exactly if the last registration accepted on its socket was for the name it gives and its target is online on a socket not destroyed; with takeover authentication a registration is accepted exactly under the key the name was first registered with |
| `RelayLimits.TakenIff` | phase4/relay-server.mjs:164-171 | a bucket lets a frame pass exactly if it fits into one burst plus the flow of every stretch of time that ends with it and began with an earlier frame or the start |
| `RelayLimits.ForwardedIff` | phase4/relay-server.mjs:271-309 | so a frame raises `forwarded`, by one, exactly if it is let through and fits both the global and the target's windows |
| `RelayLimits.RelayTells` | phase4/relay-server.mjs:271-309 | frames and bytes forwarded are exactly those delivered in this sense |
| `RelayLimits.DestinationBandwidth` | phase4/relay-server.mjs:289-306 | while it stays online one destination receives in any stretch of time at most one burst plus the rate times its length |
| `RelayServer.Server.OnRegister` | phase4/relay-server.mjs:223-268 | refuses another key for a name online or remembered, otherwise binds name, socket and key and destroys the socket taken over |
| `RelayServer.Server.OnRelay` | phase4/relay-server.mjs:271-309 | forwards only in the connection's own name, to somebody online whose socket is not destroyed, within both buckets; the global one stays charged when the other refuses |
| `RelayServer.Server.OnClose` | phase4/relay-server.mjs:324-332 | forgets the connection's clients and their buckets, not their keys |
| `Crc.ComputeCrc32` | phase7/stun-fingerprint.mjs:21-25 | the table-driven loop computes the bit-by-bit CRC of every byte string |
| `Crc.BuildTable` | phase7/stun-fingerprint.mjs:14-19 | each entry is eight single-bit steps of its index |
| `Crc.TableStep` | phase7/stun-fingerprint.mjs:21-25 | one table step is eight single-bit steps |
| `CrcWords.LinearShift8` | phase7/stun-fingerprint.mjs:14-19 | eight steps distribute over exclusive or |
| `CrcWords.Shift8Injective` | phase7/stun-fingerprint.mjs:14-19 | eight steps can be undone: the polynomial's top bit records which way each went |
| `Crc.BurstDetected` | phase7/stun-fingerprint.mjs:21-25 | any change confined to four consecutive bytes changes the checksum |
| `StunFingerprint.AppendedVerifies` | phase7/stun-fingerprint.mjs:62-72 | for every well-formed message without the attribute, what is appended is found at its end and verifies |
| `StunFingerprint.AppendVerifiesIff` | phase7/stun-fingerprint.mjs:50-72 | on a well-formed message that verifies so far, appending keeps it verifying if and only if it had no such attribute |
| `StunFingerprint.TamperingDetected` | phase7/stun-fingerprint.mjs:51-56 | a change of up to four consecutive covered bytes that leaves the attribute alone makes verification fail |
| `StunFingerprint.FindFingerprint` | phase7/stun-fingerprint.mjs:30-48 | the walk finds the first such attribute |
| `StunFingerprint.VerifyFingerprint` | phase7/stun-fingerprint.mjs:51-56 | true exactly if the attribute matches, or is missing and not required |
| `StunFingerprint.AppendFingerprint` | phase7/stun-fingerprint.mjs:62-72 | the buffer written is the message with its length field raised, then the attribute over exactly these bytes |
| `StunFingerprint.WalkExtended` | phase7/stun-fingerprint.mjs:35-46 | the walk over the extended message passes all old attributes and stops at the first fingerprint |
| `StunRules.FoundIff` | phase7/stun-fingerprint.mjs:30-48 | a fingerprint is found exactly where a walk over other attributes with their padding leads from offset 20 on to one of type 0x8028 and length 4, which may overrun the announced end by its value |
| `StunRules.VerifiesIff` | phase7/stun-fingerprint.mjs:50-56 | a message that has one verifies exactly if the value is the CRC of everything before it, exclusive or 0x5354554E; one without exactly if none is required |
| `StunRules.AppendWrites` | phase7/stun-fingerprint.mjs:60-72 | appending fails exactly for messages too short or too long; otherwise it raises the length field by 8, leaves all else, and adds type, length and the value over the raised message |
| `Credentials.EveryPathReachesGenesis` | phase0.5/bootstrap-forge.mjs:302-412 | an accepted credential is the root of a tree as deep as its generation: every path of auditors ends, after that many steps, in a credential the genesis anchor alone signed |
| `Credentials.AcceptedLevel` | phase0.5/bootstrap-forge.mjs:306-408 | at every level the work is redone, auditors are distinct and none is the holder, each signed with its known key and holds its own accepted credential one generation older |
| `Credentials.NegativeIsRefused` | phase0.5/bootstrap-forge.mjs:370-384 | generations below zero are never accepted |
| `Credentials.QualificationDescends` | phase0.5/bootstrap-forge.mjs:372-384 | following a qualification uses up a known credential or goes into a smaller one: verification terminates even if known credentials refer to each other in circles |
| `Credentials.IssuedVerifiesIff` | phase0.5/bootstrap-forge.mjs:189-288 | what is issued is accepted with the same knowledge if and only if no auditor signed twice and the verifier knows the signers' keys; for generation 0 under the genesis anchor's own id |
| `Credentials.IssueCredential` | phase0.5/bootstrap-forge.mjs:189-288 | issues exactly if every check passes and every signer has a key; otherwise gives the reasons in the code's order; a genesis signer without a key throws |
| `Credentials.VerifyCredentialChain` | phase0.5/bootstrap-forge.mjs:302-412 | verdict, reasons and preorder of visited credentials; a reason is given exactly if it is refused |
| `Credentials.Verifier.Descend` | phase0.5/bootstrap-forge.mjs:306-408 | the recursion notes reasons and visited credentials in order |
| `Credentials.ReasonsIffRefused` | phase0.5/bootstrap-forge.mjs:302-412 | no reason without refusal and no refusal without reason |
| `CredentialRules.AcceptedIff` | phase0.5/bootstrap-forge.mjs:302-412 | both ways: accepted if and only if the work is redone with the same result, auditors are named, distinct and not the holder, and the genesis anchor signed it, at generation 0, or else each auditor signed with its known key and qualifies by an accepted credential of its own one generation older |
| `CredentialRules.QualificationIff` | phase0.5/bootstrap-forge.mjs:372-376 | an auditor qualifies by the credential embedded in the first entry for it, or else the one the entry names |
| `CredentialRules.MaySignIff` | phase0.5/bootstrap-forge.mjs:222-267 | who may sign: at generation 0 the anchor or whoever claims its role, above a member with a key and a genuine credential of its own one generation older, accepted if there is a context |
| `CredentialRules.FaultMeans` | phase0.5/bootstrap-forge.mjs:222-267 | what the reason against a signer says is true of it |
| `CredentialRules.IssuedIs` | phase0.5/bootstrap-forge.mjs:273-287 | what is issued carries the work with its solution, one signature of each signer over generation, holder, work and solution, and above generation 0 each signer's qualification |
| `CredentialRules.ReasonsAreTrue` | phase0.5/bootstrap-forge.mjs:306-408 | every reason noted is true of some credential on a path of auditors |
| `CredentialRules.VisitedAreReached` | phase0.5/bootstrap-forge.mjs:306-408 | whatever is visited lies at the end of a path of auditors, at its depth, and before what lies below it |
| `CredentialRules.AllPathsVisited` | phase0.5/bootstrap-forge.mjs:306-408 | of an accepted credential every path of auditors has its end visited, with the auditors named and roots marked |
| `RelayMesh.AcceptedIffReachable` | vap-transport.mjs:529-558 | without loss or limits, once no copy is under way a valid envelope with its own id and nonce has been accepted exactly by the gateways reachable from where it was posted |
| `RelayMesh.AcceptedOnce` | vap-transport.mjs:529-543 | on every peer graph and in every run no gateway accepts a nonce twice |
| `RelayMesh.TrafficBounded` | vap-transport.mjs:100-112 | however often an envelope is posted, an id is sent over every link at most once, so flooding stops |
| `RelayMesh.EverythingAccounted` | vap-transport.mjs:369-383 | packets sent are taken off the wire or under way, and were sent over the links of gateways that forwarded the id, once each |
| `RelayMesh.LosslessSpread` | vap-transport.mjs:529-558 | in a lossless run a gateway that has the envelope has passed it to every peer, and nothing is anywhere it cannot reach |
| `MeshHistory.RequestDecided` | vap-transport.mjs:461-560 | one request: 202 exactly if it is within the limits, well formed and signed and its nonce is new, otherwise the code of the first test failed; a refused one changes and sends nothing, an accepted one is stored and goes to every peer if its id is new |
| `MeshHistory.OnlySoundSpreads` | vap-transport.mjs:524-558 | in every run whatever is accepted, stored, sent or under way is well formed and signed |
| `MeshHistory.FilesTellHistory` | vap-transport.mjs:529-558 | in every run markers and inbox of a gateway are exactly those of the envelopes it accepted, the latest of each id |
| `MeshHistory.RequestInRun` | vap-transport.mjs:461-560 | so in every run a request is accepted exactly if it passes the limits, is well formed and signed and the gateway accepted no envelope with its nonce before, and is passed on exactly if it accepted none with its id |
| `RelayMesh.Gateway.Post` | vap-transport.mjs:461-560 | status, markers, stored envelope and forwards of one request, refusals first; 202 exactly if admitted, well formed, signed and new |
| `RelayMesh.Gateway.ClaimNonce` | vap-transport.mjs:529-543 | the marker is claimed by the first caller only |
| `RelayMesh.Gateway.ClaimRelayed` | vap-transport.mjs:100-112 | likewise for the id |
| `RelayMesh.Gateway.ForwardToPeers` | vap-transport.mjs:369-383 | one copy to every listed peer |
## Left out

- Agreement across restarts (`restore`) and state copies (`syncStateFrom`): both drop recorded votes, so such nodes count among the faulty.
- Agreement while rosters switch at local heights during a run, and across several overlapping changes: the open problem of PROOFS.md section 5.
- Liveness under asynchrony or faulty leaders, which PROOFS.md disclaims too: a view change is shown to open the view, not that all then vote, since the anchor need not extend everybody's lock.
- The base replay of a ledger that holds blocks led by joined or rotated members, whose signatures it checks against the first key table; membership replay starts from the committed sequence.
- A second `restore` of one membership object, which starts from the roster the first one left.
- Errors spread over more than four bytes, which a 32-bit checksum cannot all detect.
- A bandwidth bound per destination across reconnections: its bucket starts afresh when its connection closes.
- Credential generations that are fractions or infinite.
- Lockstep views led by a node that did not collect the votes of the view before; it builds on an older block.
- Several damaged ledger lines together with a snapshot; full replay is proved on any damage.
- Commit order across restarts: a restart fills the child index from the ledger, and its votes are gone.
- The overrides of `propose`, `vote` and `safetyRule` in phase6/vap-to-membership.mjs, the checks a membership transaction passes before a vote, and private keys held for rotation.
- `detectEquivocation`, double-sign evidence and the helper `signProposal`; expulsion is modelled as a call anyone may make at any time.
- Values that are not what the code expects where it converts them (views given as strings, transactions that are not arrays), and duplicate object keys.
- `qcByView` (written, never read), timeouts and `touch`, key files and the choice of the ledger's file name.
- The specifications E-5 and E-6 (finite enumerations), and the trichotomy table and single-step branches of E-3.
- Sockets, HTTP and TLS, the per-connection frame rate and the drop hook of the relay, inbound token buckets per address and their eviction, outbound delivery of gateways.
- The trail files, quality sampling and timestamps of credentials, and credential ids.
- The bridges, the command line, the NAT planning tables and everything else in the repository.
