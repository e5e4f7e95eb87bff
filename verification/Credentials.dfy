/** The credential chain auditors are qualified by (phase0.5/bootstrap-forge.mjs: issueCredential,
  verifyCredentialChain): a credential of generation k is signed by holders of credentials of
  generation k-1, down to generation 0, which the genesis anchor signs. */
module Credentials {
  import opened Wrappers
  import Endorse

  type Id = string
  type Solution = nat

  datatype Work = Work(seed: string, difficulty: int)

  datatype Message = CredentialMessage(generation: int, holder: Id, work: Work, solution: Solution)

  datatype AuditorSig = NoAuditor | AuditorSig(id: Id, sig: Endorse.Signature<Message>)

  datatype PriorEntry = NoEntry | PriorEntry(auditorId: Id, credentialId: Id, credential: Option<Credential>)

  /** Any JSON value may be offered as a credential; a generation is taken to be an integer. */
  datatype Credential =
    | NotAnObject
    | Credential(work: Option<Work>, solution: Solution, auditors: seq<AuditorSig>, generation: int, holder: Id, prior: seq<PriorEntry>)

  datatype Genesis = Genesis(id: Id, key: Endorse.Key)

  /** What a verifier knows. `solve` redoes the work; it fails on a malformed task. */
  datatype Context = Context(solve: Work -> Option<Solution>, genesis: Option<Genesis>, keys: map<Id, Endorse.Key>, credentials: map<Id, Credential>)

  datatype Reason =
    | MissingWork | WrongSolution | NotDistinct | SelfEndorsement
    | NoGenesis | NotGenesis | BadGenesisSignature
    | NoQualification | WrongGeneration | NotOwnCredential | UnknownKey | BadSignature | BrokenChain

  datatype ChainNode = ChainNode(generation: int, holder: Id, depth: nat, auditorIds: seq<Id>, root: bool)

  datatype Check = Check(pass: bool, reasons: seq<Reason>, chain: seq<ChainNode>)

  function MessageOf(c: Credential): Message
    requires c.Credential? && c.work.Some?
  {
    CredentialMessage(c.generation, c.holder, c.work.value, c.solution)
  }

  predicate SolutionHolds(ctx: Context, c: Credential)
    requires c.Credential? && c.work.Some?
  {
    ctx.solve(c.work.value) == Some(c.solution)
  }

  predicate AllNamed(auditors: seq<AuditorSig>) {
    forall i | 0 <= i < |auditors| :: auditors[i].AuditorSig?
  }

  function Ids(auditors: seq<AuditorSig>): (ids: seq<Id>)
    requires AllNamed(auditors)
    ensures |ids| == |auditors| && forall i | 0 <= i < |ids| :: ids[i] == auditors[i].id
  {
    seq(|auditors|, i requires 0 <= i < |auditors| => auditors[i].id)
  }

  predicate NoRepeats(ids: seq<Id>) {
    forall i, j | 0 <= i < j < |ids| :: ids[i] != ids[j]
  }

  /** At least one auditor, all with ids, no id twice. */
  predicate Distinct(auditors: seq<AuditorSig>) {
    auditors != [] && AllNamed(auditors) && NoRepeats(Ids(auditors))
  }

  function FirstEntry(prior: seq<PriorEntry>, id: Id): (e: Option<PriorEntry>)
    ensures e.Some? ==> e.value in prior && e.value.PriorEntry?
  {
    if prior == [] then None
    else if prior[0].PriorEntry? && prior[0].auditorId == id then Some(prior[0])
    else FirstEntry(prior[1..], id)
  }

  /** The credential an auditor qualifies by: embedded in the entry, or looked up by its id. */
  function Qualification(ctx: Context, c: Credential, id: Id): Option<Credential>
    requires c.Credential?
  {
    var entry := FirstEntry(c.prior, id);
    if entry.None? then None
    else if entry.value.credential.Some? then entry.value.credential
    else if entry.value.credentialId in ctx.credentials then Some(ctx.credentials[entry.value.credentialId])
    else None
  }

  // ------------------------------------------------------------------ termination

  /** Known credentials of generations below g: looking one up uses it up. */
  function Below(ctx: Context, g: int): set<Id> {
    set k | k in ctx.credentials && ctx.credentials[k].Credential? && ctx.credentials[k].generation < g
  }

  function Rank(ctx: Context, c: Credential): nat {
    if c.Credential? then |Below(ctx, c.generation)| else 0
  }

  /** A qualification of the next lower generation is smaller: it is part of the credential, or it uses
    up one of the known ones. */
  lemma QualificationDescends(ctx: Context, c: Credential, id: Id)
    requires c.Credential? && Qualification(ctx, c, id).Some?
    requires var q := Qualification(ctx, c, id).value; q.Credential? && q.generation == c.generation - 1
    ensures var q := Qualification(ctx, c, id).value; Rank(ctx, q) < Rank(ctx, c) || (Rank(ctx, q) <= Rank(ctx, c) && q < c)
  {
    var q, entry := Qualification(ctx, c, id).value, FirstEntry(c.prior, id).value;
    BelowGrows(ctx, q.generation, c.generation);
    var i :| 0 <= i < |c.prior| && c.prior[i] == entry;
    if entry.credential.Some? {
      assert c.prior[i].credential.value < c;
    } else {
      var key := entry.credentialId;
      assert key in Below(ctx, c.generation) && key !in Below(ctx, q.generation);
      ProperlyBelow(Below(ctx, q.generation), Below(ctx, c.generation), key);
    }
  }

  lemma BelowGrows(ctx: Context, g: int, h: int)
    requires g <= h
    ensures Below(ctx, g) <= Below(ctx, h) && |Below(ctx, g)| <= |Below(ctx, h)|
  {
    assert Below(ctx, h) == Below(ctx, g) + (Below(ctx, h) - Below(ctx, g));
  }

  lemma ProperlyBelow(a: set<Id>, b: set<Id>, x: Id)
    requires a <= b && x in b && x !in a
    ensures |a| < |b|
  {
    assert b == (a + {x}) + (b - a - {x});
  }

  // ------------------------------------------------------------------ verification

  /** What is wrong with an auditor's qualification, before following it; None if it may be followed. */
  function QualificationFault(ctx: Context, c: Credential, a: AuditorSig): Option<Reason>
    requires c.Credential? && c.work.Some? && a.AuditorSig?
  {
    var q := Qualification(ctx, c, a.id);
    if q.None? then Some(NoQualification)
    else if q.value.NotAnObject? || q.value.generation != c.generation - 1 then Some(WrongGeneration)
    else if q.value.holder != a.id then Some(NotOwnCredential)
    else if a.id !in ctx.keys then Some(UnknownKey)
    else if !Endorse.Verifies(MessageOf(c), ctx.keys[a.id], a.sig) then Some(BadSignature)
    else None
  }

  function GenesisFault(genesis: Genesis, c: Credential, a: AuditorSig): Option<Reason>
    requires c.Credential? && c.work.Some? && a.AuditorSig?
  {
    if a.id != genesis.id then Some(NotGenesis)
    else if !Endorse.Verifies(MessageOf(c), genesis.key, a.sig) then Some(BadGenesisSignature)
    else None
  }

  function GenesisFaults(genesis: Genesis, c: Credential, k: nat): Option<Reason>
    requires c.Credential? && c.work.Some? && AllNamed(c.auditors) && k <= |c.auditors|
  {
    if k == 0 then None
    else
      var earlier := GenesisFaults(genesis, c, k - 1);
      if earlier.Some? then earlier else GenesisFault(genesis, c, c.auditors[k - 1])
  }

  function Fail(chain: seq<ChainNode>, reason: Reason): Check {
    Check(false, [reason], chain)
  }

  function NodeOf(c: Credential, depth: nat, ids: seq<Id>, root: bool): ChainNode
    requires c.Credential?
  {
    ChainNode(c.generation, c.holder, depth, ids, root)
  }

  /** Depth-first verification: the verdict, the reasons noted, and the credentials visited in preorder.
    It terminates for integer generations of either sign, even if known credentials refer to each
    other in circles. */
  function Walk(ctx: Context, c: Credential, depth: nat): Check
    decreases Rank(ctx, c), c, 1, 0
  {
    if c.NotAnObject? || c.work.None? then Fail([], MissingWork)
    else
      var bare := [NodeOf(c, depth, [], false)];
      if !SolutionHolds(ctx, c) then Fail(bare, WrongSolution)
      else if !Distinct(c.auditors) then Fail(bare, NotDistinct)
      else
        var ids := Ids(c.auditors);
        var node := [NodeOf(c, depth, ids, false)];
        if c.holder in ids then Fail(node, SelfEndorsement)
        else if c.generation == 0 then
          if ctx.genesis.None? then Fail(node, NoGenesis)
          else
            var fault := GenesisFaults(ctx.genesis.value, c, |c.auditors|);
            if fault.Some? then Fail(node, fault.value) else Check(true, [], [NodeOf(c, depth, ids, true)])
        else
          var rest := WalkAuditors(ctx, c, |c.auditors|, depth);
          Check(rest.pass, rest.reasons, node + rest.chain)
  }

  /** The first k auditors of a credential of generation other than 0. */
  function WalkAuditors(ctx: Context, c: Credential, k: nat, depth: nat): Check
    requires c.Credential? && c.work.Some? && AllNamed(c.auditors) && k <= |c.auditors|
    decreases Rank(ctx, c), c, 0, k
  {
    if k == 0 then Check(true, [], [])
    else
      var before, a := WalkAuditors(ctx, c, k - 1, depth), c.auditors[k - 1];
      if !before.pass then before
      else
        var fault := QualificationFault(ctx, c, a);
        if fault.Some? then Check(false, before.reasons + [fault.value], before.chain)
        else
          QualificationDescends(ctx, c, a.id);
          var below := Walk(ctx, Qualification(ctx, c, a.id).value, depth + 1);
          if below.pass then Check(true, before.reasons + below.reasons, before.chain + below.chain)
          else Check(false, before.reasons + below.reasons + [BrokenChain], before.chain + below.chain)
  }

  predicate Accepts(ctx: Context, c: Credential) {
    Walk(ctx, c, 0).pass
  }

  /** Collects reasons and visited credentials while it descends. */
  class Verifier {
    const ctx: Context
    var reasons: seq<Reason>
    var chain: seq<ChainNode>

    constructor (ctx: Context)
      ensures this.ctx == ctx && reasons == [] && chain == []
    {
      this.ctx, reasons, chain := ctx, [], [];
    }

    method Note(reason: Reason)
      modifies this`reasons
      ensures reasons == old(reasons) + [reason]
    {
      reasons := reasons + [reason];
    }

    method CheckGenesis(c: Credential) returns (pass: bool)
      requires c.Credential? && c.work.Some? && AllNamed(c.auditors)
      modifies this`reasons
      ensures if ctx.genesis.None? then !pass && reasons == old(reasons) + [NoGenesis]
              else
                var fault := GenesisFaults(ctx.genesis.value, c, |c.auditors|);
                pass == fault.None? && reasons == old(reasons) + if fault.Some? then [fault.value] else []
    {
      if ctx.genesis.None? {
        Note(NoGenesis);
        return false;
      }
      var genesis := ctx.genesis.value;
      for k := 0 to |c.auditors|
        invariant GenesisFaults(genesis, c, k).None? && reasons == old(reasons)
      {
        var a := c.auditors[k];
        if a.id != genesis.id {
          StaysFaulty(genesis, c, k + 1);
          Note(NotGenesis);
          return false;
        }
        if !Endorse.Verifies(MessageOf(c), genesis.key, a.sig) {
          StaysFaulty(genesis, c, k + 1);
          Note(BadGenesisSignature);
          return false;
        }
      }
      pass := true;
    }

    method Descend(c: Credential, depth: nat) returns (pass: bool)
      modifies this
      ensures var check := Walk(ctx, c, depth);
        pass == check.pass && reasons == old(reasons) + check.reasons && chain == old(chain) + check.chain
      decreases Rank(ctx, c), c, 1
    {
      if c.NotAnObject? || c.work.None? {
        Note(MissingWork);
        assert chain == old(chain) + [];
        return false;
      }
      if !SolutionHolds(ctx, c) {
        chain := chain + [NodeOf(c, depth, [], false)];
        Note(WrongSolution);
        return false;
      }
      if !Distinct(c.auditors) {
        chain := chain + [NodeOf(c, depth, [], false)];
        Note(NotDistinct);
        return false;
      }
      var ids := Ids(c.auditors);
      if c.holder in ids {
        chain := chain + [NodeOf(c, depth, ids, false)];
        Note(SelfEndorsement);
        return false;
      }
      if c.generation == 0 {
        pass := CheckGenesis(c);
        chain := chain + [NodeOf(c, depth, ids, pass)];
        return;
      }
      chain := chain + [NodeOf(c, depth, ids, false)];
      pass := DescendAuditors(c, depth);
    }

    method DescendAuditors(c: Credential, depth: nat) returns (pass: bool)
      requires c.Credential? && c.work.Some? && AllNamed(c.auditors)
      modifies this
      ensures var check := WalkAuditors(ctx, c, |c.auditors|, depth);
        pass == check.pass && reasons == old(reasons) + check.reasons && chain == old(chain) + check.chain
      decreases Rank(ctx, c), c, 0
    {
      hide Walk, WalkAuditors, Qualification, QualificationFault, Below;
      NoAuditorsYet(ctx, c, depth);
      for k := 0 to |c.auditors|
        invariant var check := WalkAuditors(ctx, c, k, depth);
          check.pass && reasons == old(reasons) + check.reasons && chain == old(chain) + check.chain
      {
        var a := c.auditors[k];
        var fault := QualificationFault(ctx, c, a);
        AuditorStep(ctx, c, k, depth);
        ghost var before := WalkAuditors(ctx, c, k, depth);
        if fault.Some? {
          StaysFailed(ctx, c, k + 1, depth);
          Note(fault.value);
          assert old(reasons) + before.reasons + [fault.value] == old(reasons) + (before.reasons + [fault.value]);
          return false;
        }
        FaultlessDescends(ctx, c, a);
        var q := Qualification(ctx, c, a.id).value;
        ghost var check := Walk(ctx, q, depth + 1);
        var below := Descend(q, depth + 1);
        assert old(chain) + before.chain + check.chain == old(chain) + (before.chain + check.chain);
        assert old(reasons) + before.reasons + check.reasons == old(reasons) + (before.reasons + check.reasons);
        if !below {
          StaysFailed(ctx, c, k + 1, depth);
          Note(BrokenChain);
          assert reasons == old(reasons) + (before.reasons + check.reasons + [BrokenChain]);
          return false;
        }
      }
      pass := true;
    }
  }

  lemma NoAuditorsYet(ctx: Context, c: Credential, depth: nat)
    requires c.Credential? && c.work.Some? && AllNamed(c.auditors)
    ensures WalkAuditors(ctx, c, 0, depth) == Check(true, [], [])
  {
  }

  lemma FaultlessDescends(ctx: Context, c: Credential, a: AuditorSig)
    requires c.Credential? && c.work.Some? && a.AuditorSig? && QualificationFault(ctx, c, a).None?
    ensures var q := Qualification(ctx, c, a.id);
      q.Some? && q.value.Credential? && q.value.generation == c.generation - 1 && q.value.holder == a.id
      && (Rank(ctx, q.value) < Rank(ctx, c) || (Rank(ctx, q.value) <= Rank(ctx, c) && q.value < c))
  {
    QualificationDescends(ctx, c, a.id);
  }

  lemma AuditorStep(ctx: Context, c: Credential, k: nat, depth: nat)
    requires c.Credential? && c.work.Some? && AllNamed(c.auditors) && k < |c.auditors|
    requires WalkAuditors(ctx, c, k, depth).pass
    ensures var before, after := WalkAuditors(ctx, c, k, depth), WalkAuditors(ctx, c, k + 1, depth);
      var fault := QualificationFault(ctx, c, c.auditors[k]);
      if fault.Some? then after == Check(false, before.reasons + [fault.value], before.chain)
      else
        var below := Walk(ctx, Qualification(ctx, c, c.auditors[k].id).value, depth + 1);
        after == if below.pass then Check(true, before.reasons + below.reasons, before.chain + below.chain)
                 else Check(false, before.reasons + below.reasons + [BrokenChain], before.chain + below.chain)
  {
  }

  lemma {:induction false} StaysFaulty(genesis: Genesis, c: Credential, k: nat)
    requires c.Credential? && c.work.Some? && AllNamed(c.auditors) && k <= |c.auditors|
    requires GenesisFaults(genesis, c, k).Some?
    ensures GenesisFaults(genesis, c, |c.auditors|) == GenesisFaults(genesis, c, k)
    decreases |c.auditors| - k
  {
    if k < |c.auditors| {
      StaysFaulty(genesis, c, k + 1);
    }
  }

  lemma {:induction false} StaysFailed(ctx: Context, c: Credential, k: nat, depth: nat)
    requires c.Credential? && c.work.Some? && AllNamed(c.auditors) && k <= |c.auditors|
    requires !WalkAuditors(ctx, c, k, depth).pass
    ensures WalkAuditors(ctx, c, |c.auditors|, depth) == WalkAuditors(ctx, c, k, depth)
    decreases |c.auditors| - k
  {
    if k < |c.auditors| {
      StaysFailed(ctx, c, k + 1, depth);
    }
  }

  /** A reason is given exactly when the credential is refused. */
  lemma {:induction false} ReasonsIffRefused(ctx: Context, c: Credential, depth: nat)
    ensures Walk(ctx, c, depth).pass <==> Walk(ctx, c, depth).reasons == []
    decreases Rank(ctx, c), c, 1, 0
  {
    if c.Credential? && c.work.Some? && Distinct(c.auditors) {
      ReasonsBelow(ctx, c, |c.auditors|, depth);
    }
  }

  lemma {:induction false} ReasonsBelow(ctx: Context, c: Credential, k: nat, depth: nat)
    requires c.Credential? && c.work.Some? && AllNamed(c.auditors) && k <= |c.auditors|
    ensures WalkAuditors(ctx, c, k, depth).pass <==> WalkAuditors(ctx, c, k, depth).reasons == []
    decreases Rank(ctx, c), c, 0, k
  {
    if k > 0 {
      ReasonsBelow(ctx, c, k - 1, depth);
      var a := c.auditors[k - 1];
      if QualificationFault(ctx, c, a).None? {
        FaultlessDescends(ctx, c, a);
        ReasonsIffRefused(ctx, Qualification(ctx, c, a.id).value, depth + 1);
      }
    }
  }

  method VerifyCredentialChain(ctx: Context, c: Credential) returns (pass: bool, reasons: set<Reason>, chain: seq<ChainNode>)
    ensures pass == Accepts(ctx, c) && (pass <==> reasons == {}) && chain == Walk(ctx, c, 0).chain
  {
    var verifier := new Verifier(ctx);
    pass := verifier.Descend(c, 0);
    reasons := set r | r in verifier.reasons;
    chain := verifier.chain;
    ReasonsIffRefused(ctx, c, 0);
    assert verifier.reasons != [] ==> verifier.reasons[0] in reasons;
  }

  // ------------------------------------------------------------------ what acceptance means

  lemma {:induction false} PassedAll(ctx: Context, c: Credential, k: nat, depth: nat, i: nat)
    requires c.Credential? && c.work.Some? && AllNamed(c.auditors) && i < k <= |c.auditors|
    requires WalkAuditors(ctx, c, k, depth).pass
    ensures QualificationFault(ctx, c, c.auditors[i]).None?
    ensures Walk(ctx, Qualification(ctx, c, c.auditors[i].id).value, depth + 1).pass
    decreases k
  {
    if i < k - 1 {
      PassedAll(ctx, c, k - 1, depth, i);
    }
  }

  lemma {:induction false} PassedGenesis(genesis: Genesis, c: Credential, k: nat, i: nat)
    requires c.Credential? && c.work.Some? && AllNamed(c.auditors) && i < k <= |c.auditors|
    requires GenesisFaults(genesis, c, k).None?
    ensures GenesisFault(genesis, c, c.auditors[i]).None?
    decreases k
  {
    if i < k - 1 {
      PassedGenesis(genesis, c, k - 1, i);
    }
  }

  /** The depth at which a credential is visited changes nothing but the depths noted. */
  lemma {:induction false} DepthDoesNotMatter(ctx: Context, c: Credential, d: nat, e: nat)
    ensures Walk(ctx, c, d).pass == Walk(ctx, c, e).pass
    decreases Rank(ctx, c), c, 1, 0
  {
    if c.Credential? && c.work.Some? && Distinct(c.auditors) {
      DepthDoesNotMatterBelow(ctx, c, |c.auditors|, d, e);
    }
  }

  lemma {:induction false} DepthDoesNotMatterBelow(ctx: Context, c: Credential, k: nat, d: nat, e: nat)
    requires c.Credential? && c.work.Some? && AllNamed(c.auditors) && k <= |c.auditors|
    ensures WalkAuditors(ctx, c, k, d).pass == WalkAuditors(ctx, c, k, e).pass
    decreases Rank(ctx, c), c, 0, k
  {
    if k > 0 {
      DepthDoesNotMatterBelow(ctx, c, k - 1, d, e);
      var a := c.auditors[k - 1];
      if QualificationFault(ctx, c, a).None? {
        FaultlessDescends(ctx, c, a);
        DepthDoesNotMatter(ctx, Qualification(ctx, c, a.id).value, d + 1, e + 1);
      }
    }
  }

  /** Follow one auditor's qualification after another. */
  function Follow(ctx: Context, c: Credential, path: seq<nat>): Option<Credential>
    decreases |path|
  {
    if path == [] then Some(c)
    else if c.NotAnObject? || path[0] >= |c.auditors| || c.auditors[path[0]].NoAuditor? then None
    else
      var q := Qualification(ctx, c, c.auditors[path[0]].id);
      if q.None? then None else Follow(ctx, q.value, path[1..])
  }

  /** The work is redone, no auditor is the holder, and every auditor is a distinct person. */
  predicate Honest(ctx: Context, c: Credential) {
    && c.Credential? && c.work.Some? && SolutionHolds(ctx, c)
    && Distinct(c.auditors) && c.holder !in Ids(c.auditors)
  }

  /** Signed by the genesis anchor and nobody else. */
  predicate SignedByGenesis(ctx: Context, c: Credential)
    requires Honest(ctx, c)
  {
    && ctx.genesis.Some? && c.generation == 0 && |c.auditors| == 1
    && c.auditors[0].id == ctx.genesis.value.id
    && Endorse.Verifies(MessageOf(c), ctx.genesis.value.key, c.auditors[0].sig)
  }

  /** Every auditor signed with its known key and holds its own accepted credential, one generation older. */
  predicate QualifiedAuditors(ctx: Context, c: Credential)
    requires Honest(ctx, c)
  {
    forall i | 0 <= i < |c.auditors| ::
      var a := c.auditors[i];
      var q := Qualification(ctx, c, a.id);
      && a.id in ctx.keys && Endorse.Verifies(MessageOf(c), ctx.keys[a.id], a.sig)
      && q.Some? && q.value.Credential? && q.value.generation == c.generation - 1 && q.value.holder == a.id
      && Accepts(ctx, q.value)
  }

  lemma OnlyOnce(ids: seq<Id>, id: Id)
    requires NoRepeats(ids)
    ensures (forall i | 0 <= i < |ids| :: ids[i] == id) ==> |ids| <= 1
  {
    assert |ids| > 1 ==> ids[0] != ids[1];
  }

  /** One level of an accepted credential. */
  lemma AcceptedLevel(ctx: Context, c: Credential)
    requires Accepts(ctx, c)
    ensures Honest(ctx, c)
    ensures if c.generation == 0 then SignedByGenesis(ctx, c) else QualifiedAuditors(ctx, c)
  {
    var n := |c.auditors|;
    if c.generation == 0 {
      forall i | 0 <= i < n ensures GenesisFault(ctx.genesis.value, c, c.auditors[i]).None? {
        PassedGenesis(ctx.genesis.value, c, n, i);
      }
      OnlyOnce(Ids(c.auditors), ctx.genesis.value.id);
    } else {
      AcceptedAuditors(ctx, c);
    }
  }

  lemma AcceptedAuditors(ctx: Context, c: Credential)
    requires Accepts(ctx, c) && c.generation != 0
    ensures QualifiedAuditors(ctx, c)
  {
    forall i | 0 <= i < |c.auditors|
      ensures QualificationFault(ctx, c, c.auditors[i]).None?
      ensures Accepts(ctx, Qualification(ctx, c, c.auditors[i].id).value)
    {
      AcceptedAuditor(ctx, c, i);
    }
  }

  lemma AcceptedAuditor(ctx: Context, c: Credential, i: nat)
    requires Accepts(ctx, c) && c.generation != 0 && i < |c.auditors|
    ensures QualificationFault(ctx, c, c.auditors[i]).None?
    ensures Qualification(ctx, c, c.auditors[i].id).Some? && Accepts(ctx, Qualification(ctx, c, c.auditors[i].id).value)
  {
    PassedAll(ctx, c, |c.auditors|, 0, i);
    DepthDoesNotMatter(ctx, Qualification(ctx, c, c.auditors[i].id).value, 1, 0);
  }

  /** Generations below zero are never accepted. */
  lemma {:induction false} NegativeIsRefused(ctx: Context, c: Credential)
    requires c.Credential? && c.generation < 0
    ensures !Accepts(ctx, c)
    decreases Rank(ctx, c), c
  {
    if Accepts(ctx, c) {
      hide Walk, QualificationFault;
      AcceptedLevel(ctx, c);
      var a := c.auditors[0];
      QualificationDescends(ctx, c, a.id);
      NegativeIsRefused(ctx, Qualification(ctx, c, a.id).value);
    }
  }

  /** Soundness: an accepted credential is the root of a tree as deep as its generation. Along every
    path of auditors, k steps down lies an accepted credential of k generations less, held by the auditor
    chosen; after as many steps as there are generations it is one the genesis anchor signed. */
  lemma {:induction false} EveryPathReachesGenesis(ctx: Context, c: Credential, path: seq<nat>)
    requires Accepts(ctx, c) && |path| <= c.generation
    requires forall p: seq<nat> | p < path && Follow(ctx, c, p).Some? && Follow(ctx, c, p).value.Credential? ::
               path[|p|] < |Follow(ctx, c, p).value.auditors|
    ensures var r := Follow(ctx, c, path);
      && r.Some? && Accepts(ctx, r.value) && Honest(ctx, r.value) && r.value.generation == c.generation - |path|
      && (|path| == c.generation ==> SignedByGenesis(ctx, r.value))
      && (|path| < c.generation ==> QualifiedAuditors(ctx, r.value))
    decreases |path|
  {
    hide Walk, QualificationFault;
    AcceptedLevel(ctx, c);
    if path != [] {
      assert [] < path && Follow(ctx, c, []) == Some(c);
      var q := Qualification(ctx, c, c.auditors[path[0]].id).value;
      forall p: seq<nat> | p < path[1..] && Follow(ctx, q, p).Some? && Follow(ctx, q, p).value.Credential?
        ensures path[1..][|p|] < |Follow(ctx, q, p).value.auditors|
      {
        var longer := [path[0]] + p;
        assert longer[1..] == p && longer < path;
        assert Follow(ctx, c, longer) == Follow(ctx, q, p);
      }
      EveryPathReachesGenesis(ctx, q, path[1..]);
    }
  }

  // ------------------------------------------------------------------ issuing

  /** Somebody asked to sign, with the private key and the qualification brought along, if any. */
  datatype Signer = NoSigner | Signer(id: Id, key: Option<Endorse.Key>, genesisRole: bool, brought: Option<Credential>)

  /** Qualifications offered by the caller: a list, a table by auditor, or a single credential. */
  datatype Offer = NoOffer | Listed(credentials: seq<Credential>) | Tabled(table: map<Id, Credential>) | Single(credential: Credential)

  datatype Issuing = Issued(credential: Credential) | Refused(reasons: seq<Refusal>) | Thrown

  datatype Refusal =
    | BadGeneration | BadHolder | NoAuditors | MalformedTask | EndorsesSelf
    | WithoutGenesis | NotQualifiedForGenesis
    | MalformedAuditor | NotQualified | CrossGeneration | NotTheirs | FabricatedSolution | InvalidChain

  function FirstHeldBy(cs: seq<Credential>, id: Id): Option<Credential> {
    if cs == [] then None
    else if cs[0].Credential? && cs[0].holder == id then Some(cs[0])
    else FirstHeldBy(cs[1..], id)
  }

  function Resolved(s: Signer, offer: Offer): Option<Credential>
    requires s.Signer?
  {
    if s.brought.Some? then s.brought
    else
      match offer
      case NoOffer => None
      case Listed(cs) => FirstHeldBy(cs, s.id)
      case Tabled(table) => if s.id in table then Some(table[s.id]) else None
      case Single(c) => if c.Credential? && c.holder == s.id then Some(c) else None
  }

  const GENESIS_ANCHOR: Id := "genesis-anchor"

  function GenesisId(ctx: Option<Context>): Id {
    if ctx.Some? && ctx.value.genesis.Some? then ctx.value.genesis.value.id else GENESIS_ANCHOR
  }

  /** Why a signer may not sign a credential of the generation; None if it may. */
  function SignerFault(ctx: Option<Context>, solve: Work -> Option<Solution>, s: Signer, generation: nat,
                       offer: Offer): Option<Refusal> {
    if generation == 0 then
      if s.Signer? && (s.genesisRole || s.id == GenesisId(ctx)) then None else Some(NotQualifiedForGenesis)
    else if s.NoSigner? || s.key.None? then Some(MalformedAuditor)
    else
      var q := Resolved(s, offer);
      if q.None? then Some(NotQualified)
      else if q.value.NotAnObject? || q.value.generation != generation - 1 then Some(CrossGeneration)
      else if q.value.holder != s.id then Some(NotTheirs)
      else if q.value.work.None? || solve(q.value.work.value) != Some(q.value.solution) then Some(FabricatedSolution)
      else if ctx.Some? && !Accepts(ctx.value, q.value) then Some(InvalidChain)
      else None
  }

  predicate MayAllSign(ctx: Option<Context>, solve: Work -> Option<Solution>, signers: seq<Signer>,
                       generation: nat, offer: Offer) {
    forall i | 0 <= i < |signers| :: SignerFault(ctx, solve, signers[i], generation, offer).None?
  }

  predicate HaveKeys(signers: seq<Signer>) {
    forall i | 0 <= i < |signers| :: signers[i].Signer? && signers[i].key.Some?
  }

  function SignedByAll(signers: seq<Signer>, message: Message): (auditors: seq<AuditorSig>)
    requires HaveKeys(signers)
    ensures |auditors| == |signers|
    ensures forall i | 0 <= i < |signers| :: auditors[i] == AuditorSig(signers[i].id, Endorse.SignedBy(signers[i].key.value, message))
  {
    seq(|signers|, i requires 0 <= i < |signers| => AuditorSig(signers[i].id, Endorse.SignedBy(signers[i].key.value, message)))
  }

  function PriorOf(signers: seq<Signer>, offer: Offer): (prior: seq<PriorEntry>)
    requires HaveKeys(signers)
  {
    if signers == [] then []
    else
      var rest, q := PriorOf(signers[1..], offer), Resolved(signers[0], offer);
      if q.Some? then [PriorEntry(signers[0].id, "", q)] + rest else rest
  }

  function CredentialFor(work: Work, solution: Solution, holder: Id, signers: seq<Signer>, generation: nat,
                         offer: Offer): Credential
    requires HaveKeys(signers)
  {
    Credential(Some(work), solution, SignedByAll(signers, CredentialMessage(generation, holder, work, solution)),
               generation, holder, if generation == 0 then [] else PriorOf(signers, offer))
  }

  predicate EndorsesHolder(signers: seq<Signer>, holder: Id) {
    exists i :: 0 <= i < |signers| && signers[i].Signer? && signers[i].id == holder
  }

  /** The faults of the signers that have one, in order. */
  function FaultsOf(ctx: Option<Context>, solve: Work -> Option<Solution>, signers: seq<Signer>, generation: nat,
                    offer: Offer): (faults: seq<Refusal>)
    ensures faults == [] <==> MayAllSign(ctx, solve, signers, generation, offer)
  {
    if signers == [] then []
    else
      var init, s := signers[..|signers| - 1], signers[|signers| - 1];
      var fault := SignerFault(ctx, solve, s, generation, offer);
      assert MayAllSign(ctx, solve, signers, generation, offer) <==> MayAllSign(ctx, solve, init, generation, offer) && fault.None? by {
        assert signers == init + [s];
      }
      FaultsOf(ctx, solve, init, generation, offer) + if fault.Some? then [fault.value] else []
  }

  lemma NoFaultsYet(ctx: Option<Context>, solve: Work -> Option<Solution>, generation: nat, offer: Offer)
    ensures FaultsOf(ctx, solve, [], generation, offer) == []
  {
  }

  lemma FaultsStep(ctx: Option<Context>, solve: Work -> Option<Solution>, signers: seq<Signer>, i: nat,
                   generation: nat, offer: Offer)
    requires i < |signers|
    ensures var fault := SignerFault(ctx, solve, signers[i], generation, offer);
      FaultsOf(ctx, solve, signers[..i + 1], generation, offer) ==
        FaultsOf(ctx, solve, signers[..i], generation, offer) + if fault.Some? then [fault.value] else []
  {
    hide SignerFault;
    assert signers[..i + 1][..i] == signers[..i];
  }

  predicate SomeoneMaySign(ctx: Option<Context>, solve: Work -> Option<Solution>, signers: seq<Signer>,
                           generation: nat, offer: Offer) {
    exists i :: 0 <= i < |signers| && SignerFault(ctx, solve, signers[i], generation, offer).None?
  }

  /** The reasons a request is refused for. */
  function ReasonsToRefuse(ctx: Option<Context>, solve: Work -> Option<Solution>, work: Work, holder: Id,
                           signers: seq<Signer>, generation: int, offer: Offer): seq<Refusal> {
    if generation < 0 then [BadGeneration]
    else if holder == "" then [BadHolder]
    else if signers == [] then [NoAuditors]
    else if solve(work).None? then [MalformedTask]
    else if EndorsesHolder(signers, holder) then [EndorsesSelf]
    else
      (if generation == 0 && !SomeoneMaySign(ctx, solve, signers, generation, offer) then [WithoutGenesis] else [])
      + FaultsOf(ctx, solve, signers, generation, offer)
  }

  /** The faults of all signers, and whether some signer has none. */
  method JudgeSigners(ctx: Option<Context>, solve: Work -> Option<Solution>, signers: seq<Signer>, generation: nat, offer: Offer)
    returns (reasons: seq<Refusal>, qualified: bool)
    ensures reasons == FaultsOf(ctx, solve, signers, generation, offer)
    ensures qualified <==> SomeoneMaySign(ctx, solve, signers, generation, offer)
  {
    hide SignerFault, FaultsOf;
    NoFaultsYet(ctx, solve, generation, offer);
    reasons, qualified := [], false;
    for i := 0 to |signers|
      invariant reasons == FaultsOf(ctx, solve, signers[..i], generation, offer)
      invariant qualified <==> exists j :: 0 <= j < i && SignerFault(ctx, solve, signers[j], generation, offer).None?
    {
      FaultsStep(ctx, solve, signers, i, generation, offer);
      var fault := SignerFault(ctx, solve, signers[i], generation, offer);
      if fault.None? {
        qualified := true;
      } else {
        reasons := reasons + [fault.value];
      }
    }
    assert signers[..|signers|] == signers;
  }

  /** A credential is issued exactly if every check passes and every signer has a key to sign with; a
    genesis signer without one makes the call throw. */
  method IssueCredential(ctx: Option<Context>, solve: Work -> Option<Solution>, work: Work, holder: Id,
                         signers: seq<Signer>, generation: int, offer: Offer) returns (r: Issuing)
    ensures r.Issued? <==>
      && generation >= 0 && holder != "" && signers != [] && solve(work).Some? && !EndorsesHolder(signers, holder)
      && MayAllSign(ctx, solve, signers, generation, offer) && HaveKeys(signers)
    ensures r.Issued? ==> r.credential == CredentialFor(work, solve(work).value, holder, signers, generation, offer)
    ensures r.Refused? ==> r.reasons != [] && r.reasons == ReasonsToRefuse(ctx, solve, work, holder, signers, generation, offer)
    ensures r.Thrown? ==> generation == 0
  {
    if generation < 0 {
      return Refused([BadGeneration]);
    }
    if holder == "" {
      return Refused([BadHolder]);
    }
    if signers == [] {
      return Refused([NoAuditors]);
    }
    var solution := solve(work);
    if solution.None? {
      return Refused([MalformedTask]);
    }
    for i := 0 to |signers|
      invariant forall j | 0 <= j < i :: !(signers[j].Signer? && signers[j].id == holder)
    {
      if signers[i].Signer? && signers[i].id == holder {
        return Refused([EndorsesSelf]);
      }
    }
    hide SignerFault, FaultsOf, CredentialFor;
    var reasons, qualified := JudgeSigners(ctx, solve, signers, generation, offer);
    if generation == 0 && !qualified {
      reasons := [WithoutGenesis] + reasons;
    }
    if reasons != [] {
      return Refused(reasons);
    }
    if generation > 0 {
      KeysAboveZero(ctx, solve, signers, generation, offer);
    }
    for i := 0 to |signers|
      invariant forall j | 0 <= j < i :: signers[j].Signer? && signers[j].key.Some?
    {
      if signers[i].NoSigner? || signers[i].key.None? {
        return Thrown;
      }
    }
    r := Issued(CredentialFor(work, solution.value, holder, signers, generation, offer));
  }

  /** Above generation 0 only signers with a key may sign. */
  lemma KeysAboveZero(ctx: Option<Context>, solve: Work -> Option<Solution>, signers: seq<Signer>,
                      generation: nat, offer: Offer)
    requires MayAllSign(ctx, solve, signers, generation, offer) && generation > 0
    ensures HaveKeys(signers)
  {
    forall i | 0 <= i < |signers| ensures signers[i].Signer? && signers[i].key.Some? {
      assert SignerFault(ctx, solve, signers[i], generation, offer).None?;
    }
  }

  // ------------------------------------------------------------------ what is issued verifies

  predicate DistinctSigners(signers: seq<Signer>)
    requires HaveKeys(signers)
  {
    forall i, j | 0 <= i < j < |signers| :: signers[i].id != signers[j].id
  }

  /** The verifier knows the signers under the keys they sign with. */
  predicate KnownSigners(ctx: Context, signers: seq<Signer>, generation: nat)
    requires HaveKeys(signers)
  {
    forall i | 0 <= i < |signers| ::
      var s := signers[i];
      if generation == 0 then ctx.genesis.Some? && s.id == ctx.genesis.value.id && s.key == Some(ctx.genesis.value.key)
      else s.id in ctx.keys && s.key == Some(ctx.keys[s.id])
  }

  lemma {:induction false} OwnEntryFirst(signers: seq<Signer>, offer: Offer, i: nat)
    requires HaveKeys(signers) && DistinctSigners(signers) && i < |signers| && Resolved(signers[i], offer).Some?
    ensures FirstEntry(PriorOf(signers, offer), signers[i].id) == Some(PriorEntry(signers[i].id, "", Resolved(signers[i], offer)))
  {
    var rest := PriorOf(signers[1..], offer);
    if i > 0 {
      OwnEntryFirst(signers[1..], offer, i - 1);
      assert signers[0].id != signers[i].id;
    }
    if Resolved(signers[0], offer).Some? {
      assert PriorOf(signers, offer)[1..] == rest;
    }
  }

  lemma {:induction false} AuditorsPass(ctx: Context, c: Credential, k: nat)
    requires c.Credential? && c.work.Some? && AllNamed(c.auditors) && k <= |c.auditors|
    requires forall i | 0 <= i < |c.auditors| ::
      QualificationFault(ctx, c, c.auditors[i]).None? && Accepts(ctx, Qualification(ctx, c, c.auditors[i].id).value)
    ensures WalkAuditors(ctx, c, k, 0).pass
  {
    hide Walk, WalkAuditors, QualificationFault;
    if k == 0 {
      NoAuditorsYet(ctx, c, 0);
    } else {
      AuditorsPass(ctx, c, k - 1);
      AuditorStep(ctx, c, k - 1, 0);
      FaultlessDescends(ctx, c, c.auditors[k - 1]);
      DepthDoesNotMatter(ctx, Qualification(ctx, c, c.auditors[k - 1].id).value, 1, 0);
    }
  }

  lemma {:induction false} GenesisPasses(genesis: Genesis, c: Credential, k: nat)
    requires c.Credential? && c.work.Some? && AllNamed(c.auditors) && k <= |c.auditors|
    requires forall i | 0 <= i < |c.auditors| :: GenesisFault(genesis, c, c.auditors[i]).None?
    ensures GenesisFaults(genesis, c, k).None?
  {
    if k > 0 {
      GenesisPasses(genesis, c, k - 1);
    }
  }

  /** Everything issuing checks, as the method above states it. */
  predicate Issuable(ctx: Context, work: Work, holder: Id, signers: seq<Signer>, generation: nat, offer: Offer) {
    && holder != "" && signers != [] && ctx.solve(work).Some? && !EndorsesHolder(signers, holder)
    && MayAllSign(Some(ctx), ctx.solve, signers, generation, offer) && HaveKeys(signers)
  }

  /** An issued credential is accepted by the verifier with the same knowledge if and only if no auditor
    signed twice and the verifier knows the signers' keys; for generation 0 that means the genesis
    anchor under its own id, although issuing also lets anybody in who merely claims that role. */
  lemma IssuedVerifiesIff(ctx: Context, work: Work, holder: Id, signers: seq<Signer>, generation: nat, offer: Offer)
    requires Issuable(ctx, work, holder, signers, generation, offer)
    ensures Accepts(ctx, CredentialFor(work, ctx.solve(work).value, holder, signers, generation, offer)) <==>
            DistinctSigners(signers) && KnownSigners(ctx, signers, generation)
  {
    var c := CredentialFor(work, ctx.solve(work).value, holder, signers, generation, offer);
    if DistinctSigners(signers) && KnownSigners(ctx, signers, generation) {
      KnownIssuedVerifies(ctx, work, holder, signers, generation, offer);
    }
    if Accepts(ctx, c) {
      hide Walk;
      AcceptedLevel(ctx, c);
      forall i, j | 0 <= i < j < |signers| ensures signers[i].id != signers[j].id {
        assert Ids(c.auditors)[i] != Ids(c.auditors)[j];
      }
      forall i | 0 <= i < |signers|
        ensures if generation == 0 then ctx.genesis.Some? && signers[i].id == ctx.genesis.value.id && signers[i].key == Some(ctx.genesis.value.key)
                else signers[i].id in ctx.keys && signers[i].key == Some(ctx.keys[signers[i].id])
      {
        assert c.auditors[i] == AuditorSig(signers[i].id, Endorse.SignedBy(signers[i].key.value, MessageOf(c)));
      }
    }
  }

  lemma KnownIssuedVerifies(ctx: Context, work: Work, holder: Id, signers: seq<Signer>, generation: nat, offer: Offer)
    requires Issuable(ctx, work, holder, signers, generation, offer)
    requires DistinctSigners(signers) && KnownSigners(ctx, signers, generation)
    ensures Accepts(ctx, CredentialFor(work, ctx.solve(work).value, holder, signers, generation, offer))
  {
    var c := CredentialFor(work, ctx.solve(work).value, holder, signers, generation, offer);
    IssuedHonest(ctx, work, holder, signers, generation, offer);
    if generation == 0 {
      assert signers[0].key == Some(ctx.genesis.value.key);
      forall i | 0 <= i < |c.auditors| ensures GenesisFault(ctx.genesis.value, c, c.auditors[i]).None? {
        assert c.auditors[i] == AuditorSig(signers[i].id, Endorse.SignedBy(signers[i].key.value, MessageOf(c)));
      }
      assert c.auditors[0].id == signers[0].id;
      GenesisPasses(ctx.genesis.value, c, |c.auditors|);
    } else {
      forall i | 0 <= i < |c.auditors|
        ensures QualificationFault(ctx, c, c.auditors[i]).None?
        ensures Accepts(ctx, Qualification(ctx, c, c.auditors[i].id).value)
      {
        assert c.auditors[i] == AuditorSig(signers[i].id, Endorse.SignedBy(signers[i].key.value, MessageOf(c)));
        assert SignerFault(Some(ctx), ctx.solve, signers[i], generation, offer).None?;
        OwnEntryFirst(signers, offer, i);
      }
      AuditorsPass(ctx, c, |c.auditors|);
    }
  }

  lemma IssuedHonest(ctx: Context, work: Work, holder: Id, signers: seq<Signer>, generation: nat, offer: Offer)
    requires Issuable(ctx, work, holder, signers, generation, offer) && DistinctSigners(signers)
    ensures Honest(ctx, CredentialFor(work, ctx.solve(work).value, holder, signers, generation, offer))
  {
    var c := CredentialFor(work, ctx.solve(work).value, holder, signers, generation, offer);
    assert forall i | 0 <= i < |signers| :: Ids(c.auditors)[i] == signers[i].id;
  }
}
