/** The rules for credentials (phase0.5/bootstrap-forge.mjs), told without the walk that checks them. */
module CredentialRules {
  import opened Wrappers
  import opened Credentials
  import Endorse

  // ------------------------------------------------------------------ what is accepted

  predicate EntryFor(e: PriorEntry, id: Id) {
    e.PriorEntry? && e.auditorId == id
  }

  /** The first entry for the auditor embeds this credential, or names it by its id and embeds none. */
  predicate QualifiesBy(ctx: Context, c: Credential, id: Id, q: Credential) {
    c.Credential? && exists i ::
      && 0 <= i < |c.prior| && EntryFor(c.prior[i], id) && (forall j | 0 <= j < i :: !EntryFor(c.prior[j], id))
      && (if c.prior[i].credential.Some? then c.prior[i].credential == Some(q)
          else c.prior[i].credentialId in ctx.credentials && ctx.credentials[c.prior[i].credentialId] == q)
  }

  /** The work is redone with the same result; there are auditors, all named, none twice, none the holder. */
  predicate WellMade(ctx: Context, c: Credential) {
    && c.Credential? && c.work.Some? && ctx.solve(c.work.value) == Some(c.solution) && c.auditors != []
    && (forall i | 0 <= i < |c.auditors| :: c.auditors[i].AuditorSig? && c.auditors[i].id != c.holder)
    && (forall i, j | 0 <= i < j < |c.auditors| && c.auditors[i].AuditorSig? && c.auditors[j].AuditorSig? ::
          c.auditors[i].id != c.auditors[j].id)
  }

  /** The auditor's signature under the key over generation, holder, work and solution. */
  predicate SignsWith(c: Credential, a: AuditorSig, key: Endorse.Key)
    requires c.Credential? && c.work.Some? && a.AuditorSig?
  {
    a.sig == Endorse.SignedBy(key, CredentialMessage(c.generation, c.holder, c.work.value, c.solution))
  }

  predicate ByGenesis(ctx: Context, c: Credential)
    requires WellMade(ctx, c)
  {
    ctx.genesis.Some? && forall i | 0 <= i < |c.auditors| ::
      c.auditors[i].id == ctx.genesis.value.id && SignsWith(c, c.auditors[i], ctx.genesis.value.key)
  }

  /** The auditor signed with its known key and has an accepted credential of its own, one generation older. */
  ghost predicate GoodAuditor(ctx: Context, c: Credential, a: AuditorSig)
    requires WellMade(ctx, c) && a.AuditorSig?
  {
    && a.id in ctx.keys && SignsWith(c, a, ctx.keys[a.id])
    && exists q :: QualifiesBy(ctx, c, a.id, q) && q.Credential? && q.generation == c.generation - 1 && q.holder == a.id && Accepts(ctx, q)
  }

  lemma {:induction false} FirstEntryIs(prior: seq<PriorEntry>, id: Id)
    ensures var e := FirstEntry(prior, id);
      if e.None? then forall i | 0 <= i < |prior| :: !EntryFor(prior[i], id)
      else exists i :: 0 <= i < |prior| && prior[i] == e.value && EntryFor(prior[i], id) && forall j | 0 <= j < i ::
          !EntryFor(prior[j], id)
  {
    if prior != [] && !EntryFor(prior[0], id) {
      FirstEntryIs(prior[1..], id);
      var e := FirstEntry(prior[1..], id);
      if e.Some? {
        var i :| 0 <= i < |prior[1..]| && prior[1..][i] == e.value && EntryFor(prior[1..][i], id)
          && forall j | 0 <= j < i :: !EntryFor(prior[1..][j], id);
        assert prior[i + 1] == e.value;
        forall j | 0 <= j < i + 1 ensures !EntryFor(prior[j], id) {
          assert j > 0 ==> prior[j] == prior[1..][j - 1];
        }
      } else {
        forall i | 0 <= i < |prior| ensures !EntryFor(prior[i], id) {
          assert i > 0 ==> prior[i] == prior[1..][i - 1];
        }
      }
    }
  }

  /** An auditor qualifies by at most one credential, the one the first entry for it leads to. */
  lemma QualificationIff(ctx: Context, c: Credential, id: Id, q: Credential)
    requires c.Credential?
    ensures Qualification(ctx, c, id) == Some(q) <==> QualifiesBy(ctx, c, id, q)
  {
    FirstEntryIs(c.prior, id);
    var e := FirstEntry(c.prior, id);
    if e.Some? {
      var i :| 0 <= i < |c.prior| && c.prior[i] == e.value && EntryFor(c.prior[i], id) && forall j | 0 <= j < i ::
          !EntryFor(c.prior[j], id);
    }
  }

  lemma WellMadeIsHonest(ctx: Context, c: Credential)
    ensures WellMade(ctx, c) <==> Honest(ctx, c)
  {
    if c.Credential? && AllNamed(c.auditors) {
      var ids := Ids(c.auditors);
      if Honest(ctx, c) {
        forall i, j | 0 <= i < j < |c.auditors| ensures c.auditors[i].id != c.auditors[j].id {
          assert ids[i] != ids[j];
        }
        forall i | 0 <= i < |c.auditors| ensures c.auditors[i].id != c.holder {
          assert ids[i] in ids;
        }
      }
      if WellMade(ctx, c) {
        assert c.holder !in ids && NoRepeats(ids);
      }
    }
  }

  lemma FaultlessIff(ctx: Context, c: Credential, a: AuditorSig)
    requires WellMade(ctx, c) && a.AuditorSig?
    ensures GoodAuditor(ctx, c, a) <==>
            QualificationFault(ctx, c, a).None? && Qualification(ctx, c, a.id).Some? &&
            Accepts(ctx, Qualification(ctx, c, a.id).value)
  {
    hide Accepts, Qualification, QualifiesBy;
    var q := Qualification(ctx, c, a.id);
    if q.Some? {
      QualificationIff(ctx, c, a.id, q.value);
    }
    if GoodAuditor(ctx, c, a) {
      var r :| QualifiesBy(ctx, c, a.id, r) && r.Credential? && r.generation == c.generation - 1 &&
        r.holder == a.id && Accepts(ctx, r);
      QualificationIff(ctx, c, a.id, r);
    }
  }

  /** A credential is accepted if and only if it is well made and signed by the genesis anchor, at
    generation 0, or else by auditors that all hold accepted credentials one generation older. */
  lemma AcceptedIff(ctx: Context, c: Credential)
    ensures Accepts(ctx, c) <==>
            && WellMade(ctx, c)
            && if c.generation == 0 then ByGenesis(ctx, c) else forall i | 0 <= i < |c.auditors| ::
                GoodAuditor(ctx, c, c.auditors[i])
  {
    WellMadeIsHonest(ctx, c);
    if Accepts(ctx, c) {
      AcceptedIsGood(ctx, c);
    }
    if WellMade(ctx, c) {
      if c.generation == 0 {
        if ByGenesis(ctx, c) {
          GenesisPasses(ctx.genesis.value, c, |c.auditors|);
        }
      } else if forall i | 0 <= i < |c.auditors| :: GoodAuditor(ctx, c, c.auditors[i]) {
        GoodIsAccepted(ctx, c);
      }
    }
  }

  lemma AcceptedIsGood(ctx: Context, c: Credential)
    requires Accepts(ctx, c)
    ensures WellMade(ctx, c)
    ensures if c.generation == 0 then ByGenesis(ctx, c) else forall i | 0 <= i < |c.auditors| ::
          GoodAuditor(ctx, c, c.auditors[i])
  {
    hide Accepts, QualificationFault, Qualification, QualifiesBy;
    AcceptedLevel(ctx, c);
    WellMadeIsHonest(ctx, c);
    if c.generation != 0 {
      forall i | 0 <= i < |c.auditors| ensures GoodAuditor(ctx, c, c.auditors[i]) {
        AcceptedAuditor(ctx, c, i);
        FaultlessIff(ctx, c, c.auditors[i]);
      }
    }
  }

  lemma GoodIsAccepted(ctx: Context, c: Credential)
    requires WellMade(ctx, c) && c.generation != 0
    requires forall i | 0 <= i < |c.auditors| :: GoodAuditor(ctx, c, c.auditors[i])
    ensures Accepts(ctx, c)
  {
    hide QualificationFault, Qualification, QualifiesBy, GoodAuditor, WalkAuditors;
    WellMadeIsHonest(ctx, c);
    forall i | 0 <= i < |c.auditors|
      ensures QualificationFault(ctx, c, c.auditors[i]).None?
      ensures Qualification(ctx, c, c.auditors[i].id).Some?
      ensures Accepts(ctx, Qualification(ctx, c, c.auditors[i].id).value)
    {
      FaultlessIff(ctx, c, c.auditors[i]);
    }
    AuditorsPass(ctx, c, |c.auditors|);
  }

  // ------------------------------------------------------------------ who may sign, and what is issued

  /** The qualification a signer comes with: the one it brings, else the first of a list that it holds, its
    entry in a table, or a single credential if it holds that. */
  predicate ComesWith(s: Signer, offer: Offer, q: Credential) {
    s.Signer? &&
      if s.brought.Some? then s.brought == Some(q)
      else
        match offer
        case NoOffer => false
        case Listed(cs) => exists i :: 0 <= i < |cs| && cs[i] == q && HeldBy(cs[i], s.id) && forall j | 0 <= j < i ::
            !HeldBy(cs[j], s.id)
        case Tabled(table) => s.id in table && table[s.id] == q
        case Single(c) => HeldBy(c, s.id) && c == q
  }

  predicate HeldBy(c: Credential, id: Id) {
    c.Credential? && c.holder == id
  }

  /** At generation 0 the anchor, or whoever claims its role; above, a member with a key and a genuine
    credential of its own one generation older, accepted if there is a context to check it in. */
  ghost predicate MaySign(ctx: Option<Context>, solve: Work -> Option<Solution>, s: Signer, generation: nat,
                          offer: Offer) {
    if generation == 0 then
      && s.Signer?
      && (|| s.genesisRole
          || s.id == if ctx.Some? && ctx.value.genesis.Some? then ctx.value.genesis.value.id else "genesis-anchor")
    else
      && s.Signer? && s.key.Some?
      && exists q ::
           && ComesWith(s, offer, q) && q.Credential? && q.generation == generation - 1 && q.holder == s.id
           && q.work.Some? && solve(q.work.value) == Some(q.solution) && (ctx.Some? ==> Accepts(ctx.value, q))
  }

  lemma {:induction false} FirstHeldIs(cs: seq<Credential>, id: Id)
    ensures var q := FirstHeldBy(cs, id);
      if q.None? then forall i | 0 <= i < |cs| :: !HeldBy(cs[i], id)
      else exists i :: 0 <= i < |cs| && cs[i] == q.value && HeldBy(cs[i], id) && forall j | 0 <= j < i :: !HeldBy(cs[j], id)
  {
    if cs != [] && !HeldBy(cs[0], id) {
      FirstHeldIs(cs[1..], id);
      var q := FirstHeldBy(cs[1..], id);
      if q.Some? {
        var i :| 0 <= i < |cs[1..]| && cs[1..][i] == q.value && HeldBy(cs[1..][i], id) && forall j | 0 <= j < i ::
            !HeldBy(cs[1..][j], id);
        assert cs[i + 1] == q.value;
        forall j | 0 <= j < i + 1 ensures !HeldBy(cs[j], id) {
          assert j > 0 ==> cs[j] == cs[1..][j - 1];
        }
      } else {
        forall i | 0 <= i < |cs| ensures !HeldBy(cs[i], id) {
          assert i > 0 ==> cs[i] == cs[1..][i - 1];
        }
      }
    }
  }

  lemma ResolvedIff(s: Signer, offer: Offer, q: Credential)
    requires s.Signer?
    ensures Resolved(s, offer) == Some(q) <==> ComesWith(s, offer, q)
  {
    if s.brought.None? && offer.Listed? {
      FirstHeldIs(offer.credentials, s.id);
    }
  }

  lemma MaySignIff(ctx: Option<Context>, solve: Work -> Option<Solution>, s: Signer, generation: nat, offer: Offer)
    ensures SignerFault(ctx, solve, s, generation, offer).None? <==> MaySign(ctx, solve, s, generation, offer)
  {
    hide Accepts, ComesWith, Resolved;
    if generation != 0 && s.Signer? {
      var q := Resolved(s, offer);
      if q.Some? {
        ResolvedIff(s, offer, q.value);
      }
      if MaySign(ctx, solve, s, generation, offer) {
        var r :| ComesWith(s, offer, r) && r.Credential? && r.generation == generation - 1 && r.holder == s.id
          && r.work.Some? && solve(r.work.value) == Some(r.solution) && (ctx.Some? ==> Accepts(ctx.value, r));
        ResolvedIff(s, offer, r);
      }
    }
  }

  /** What is wrong with a signer that may not sign: the first of these that is true. */
  ghost predicate Unfit(ctx: Option<Context>, solve: Work -> Option<Solution>, s: Signer, generation: nat,
                        offer: Offer, r: Refusal) {
    match r
    case NotQualifiedForGenesis => generation == 0
    case MalformedAuditor => generation > 0 && (s.NoSigner? || s.key.None?)
    case NotQualified => generation > 0 && s.Signer? && s.key.Some? && forall q :: !ComesWith(s, offer, q)
    case CrossGeneration => generation > 0 &&
      exists q :: ComesWith(s, offer, q) && !(q.Credential? && q.generation == generation - 1)
    case NotTheirs => generation > 0 && exists q ::
        ComesWith(s, offer, q) && q.Credential? && q.generation == generation - 1 && q.holder != s.id
    case FabricatedSolution =>
      generation > 0 && exists q ::
        ComesWith(s, offer, q) && q.Credential? && q.generation == generation - 1 && q.holder == s.id
        && (q.work.None? || solve(q.work.value) != Some(q.solution))
    case InvalidChain =>
      generation > 0 && ctx.Some? && exists q ::
        ComesWith(s, offer, q) && q.Credential? && q.generation == generation - 1 && q.holder == s.id
        && q.work.Some? && solve(q.work.value) == Some(q.solution) && !Accepts(ctx.value, q)
    case _ => false
  }

  lemma FaultMeans(ctx: Option<Context>, solve: Work -> Option<Solution>, s: Signer, generation: nat, offer: Offer)
    ensures var fault := SignerFault(ctx, solve, s, generation, offer);
      fault.Some? ==> !MaySign(ctx, solve, s, generation, offer) && Unfit(ctx, solve, s, generation, offer, fault.value)
  {
    hide Accepts, ComesWith, Resolved;
    MaySignIff(ctx, solve, s, generation, offer);
    if generation > 0 && s.Signer? {
      var q := Resolved(s, offer);
      if q.Some? {
        ResolvedIff(s, offer, q.value);
      } else {
        forall r ensures !ComesWith(s, offer, r) {
          ResolvedIff(s, offer, r);
        }
      }
    }
  }

  lemma {:induction false} PriorsOf(signers: seq<Signer>, offer: Offer, qs: seq<Credential>)
    requires HaveKeys(signers) && |qs| == |signers|
    requires forall i | 0 <= i < |signers| :: ComesWith(signers[i], offer, qs[i])
    ensures var prior := PriorOf(signers, offer);
      |prior| == |signers| && forall i | 0 <= i < |signers| :: prior[i] == PriorEntry(signers[i].id, "", Some(qs[i]))
  {
    hide ComesWith, Resolved;
    if signers != [] {
      ResolvedIff(signers[0], offer, qs[0]);
      PriorsOf(signers[1..], offer, qs[1..]);
    }
  }

  /** What is issued: the work with its solution, the holder and generation asked for, one signature of each
    signer over them, and above generation 0 each signer's qualification. */
  lemma IssuedIs(work: Work, solution: Solution, holder: Id, signers: seq<Signer>, generation: nat, offer: Offer,
                 qs: seq<Credential>)
    requires HaveKeys(signers)
    requires generation > 0 ==> |qs| == |signers| && forall i | 0 <= i < |signers| :: ComesWith(signers[i], offer, qs[i])
    ensures var c := CredentialFor(work, solution, holder, signers, generation, offer);
      && c.Credential? && c.work == Some(work) && c.solution == solution && c.holder == holder && c.generation == generation
      && |c.auditors| == |signers|
      && (forall i | 0 <= i < |signers| ::
            c.auditors[i] == AuditorSig(signers[i].id, Endorse.SignedBy(signers[i].key.value, CredentialMessage(generation, holder, work, solution))))
      && |c.prior| == (if generation == 0 then 0 else |signers|)
      && (forall i | 0 <= i < |c.prior| :: c.prior[i] == PriorEntry(signers[i].id, "", Some(qs[i])))
  {
    if generation > 0 {
      PriorsOf(signers, offer, qs);
    }
  }

  // ------------------------------------------------------------------ what the reasons mean

  predicate Complete(c: Credential) {
    c.Credential? && c.work.Some?
  }

  predicate AuditorAt(c: Credential, i: nat) {
    Complete(c) && i < |c.auditors| && c.auditors[i].AuditorSig?
  }

  /** The reason is true of the credential. */
  ghost predicate TrueOf(ctx: Context, c: Credential, r: Reason) {
    match r
    case MissingWork => !Complete(c)
    case WrongSolution => Complete(c) && ctx.solve(c.work.value) != Some(c.solution)
    case NotDistinct =>
      Complete(c) &&
        (|| c.auditors == [] || (exists i: nat :: i < |c.auditors| && !AuditorAt(c, i))
         || exists i: nat, j: nat :: i < j && AuditorAt(c, i) && AuditorAt(c, j) && c.auditors[i].id == c.auditors[j].id)
    case SelfEndorsement => exists i: nat :: AuditorAt(c, i) && c.auditors[i].id == c.holder
    case NoGenesis => Complete(c) && c.generation == 0 && ctx.genesis.None?
    case NotGenesis => ctx.genesis.Some? && exists i: nat ::
        AuditorAt(c, i) && c.generation == 0 && c.auditors[i].id != ctx.genesis.value.id
    case BadGenesisSignature =>
      ctx.genesis.Some? && exists i: nat ::
          AuditorAt(c, i) && c.generation == 0 && !SignsWith(c, c.auditors[i], ctx.genesis.value.key)
    case _ => exists i: nat :: AuditorAt(c, i) && c.generation != 0 && FailsBy(ctx, c, c.auditors[i], r)
  }

  /** What is wrong with one auditor of a credential above generation 0. */
  ghost predicate FailsBy(ctx: Context, c: Credential, a: AuditorSig, r: Reason)
    requires c.Credential? && c.work.Some? && a.AuditorSig?
  {
    match r
    case NoQualification => forall q :: !QualifiesBy(ctx, c, a.id, q)
    case WrongGeneration => exists q :: QualifiesBy(ctx, c, a.id, q) && (q.NotAnObject? || q.generation != c.generation - 1)
    case NotOwnCredential => exists q :: QualifiesBy(ctx, c, a.id, q) && q.Credential? && q.holder != a.id
    case UnknownKey => a.id !in ctx.keys
    case BadSignature => a.id in ctx.keys && !SignsWith(c, a, ctx.keys[a.id])
    case BrokenChain => exists q :: QualifiesBy(ctx, c, a.id, q) && !Accepts(ctx, q)
    case _ => false
  }

  lemma FaultIsTrue(ctx: Context, c: Credential, a: AuditorSig)
    requires c.Credential? && c.work.Some? && a.AuditorSig?
    ensures var fault := QualificationFault(ctx, c, a);
        fault.Some? ==> !fault.value.MissingWork? && FailsBy(ctx, c, a, fault.value)
  {
    hide Qualification, QualifiesBy, Accepts;
    var q := Qualification(ctx, c, a.id);
    if q.Some? {
      QualificationIff(ctx, c, a.id, q.value);
    } else {
      forall r ensures !QualifiesBy(ctx, c, a.id, r) {
        QualificationIff(ctx, c, a.id, r);
      }
    }
  }

  /** The reason is true of some credential on a path of auditors. */
  ghost predicate Applies(ctx: Context, c: Credential, r: Reason) {
    exists path :: Follow(ctx, c, path).Some? && TrueOf(ctx, Follow(ctx, c, path).value, r)
  }

  lemma AppliesHere(ctx: Context, c: Credential, r: Reason)
    requires TrueOf(ctx, c, r)
    ensures Applies(ctx, c, r)
  {
    assert Follow(ctx, c, []) == Some(c);
  }

  lemma FollowOn(ctx: Context, c: Credential, i: nat, path: seq<nat>)
    requires AuditorAt(c, i) && Qualification(ctx, c, c.auditors[i].id).Some?
    ensures Follow(ctx, c, [i] + path) == Follow(ctx, Qualification(ctx, c, c.auditors[i].id).value, path)
  {
    assert ([i] + path)[1..] == path;
  }

  lemma AppliesBelow(ctx: Context, c: Credential, i: nat, r: Reason)
    requires AuditorAt(c, i) && Qualification(ctx, c, c.auditors[i].id).Some?
    requires Applies(ctx, Qualification(ctx, c, c.auditors[i].id).value, r)
    ensures Applies(ctx, c, r)
  {
    hide TrueOf, Qualification, Follow;
    var q := Qualification(ctx, c, c.auditors[i].id).value;
    var path :| Follow(ctx, q, path).Some? && TrueOf(ctx, Follow(ctx, q, path).value, r);
    FollowOn(ctx, c, i, path);
  }

  lemma FirstFaultIsTrue(genesis: Genesis, c: Credential, k: nat)
    requires Complete(c) && AllNamed(c.auditors) && k <= |c.auditors| && c.generation == 0
    ensures forall ctx: Context | ctx.genesis == Some(genesis) && GenesisFaults(genesis, c, k).Some? ::
      TrueOf(ctx, c, GenesisFaults(genesis, c, k).value)
  {
    if k > 0 && GenesisFaults(genesis, c, k - 1).None? {
      assert AuditorAt(c, k - 1);
    } else if k > 0 {
      FirstFaultIsTrue(genesis, c, k - 1);
    }
  }

  /** Every reason noted is true of some credential on a path of auditors. */
  lemma {:induction false} ReasonsAreTrue(ctx: Context, c: Credential, depth: nat)
    ensures forall r | r in Walk(ctx, c, depth).reasons :: Applies(ctx, c, r)
    decreases Rank(ctx, c), c, 1, 0
  {
    hide Applies, TrueOf;
    forall r | TrueOf(ctx, c, r) ensures Applies(ctx, c, r) {
      AppliesHere(ctx, c, r);
    }
    if Complete(c) {
      OwnReasons(ctx, c);
      if Distinct(c.auditors) {
        ReasonsBelowAreTrue(ctx, c, |c.auditors|, depth);
        if c.generation == 0 && ctx.genesis.Some? {
          FirstFaultIsTrue(ctx.genesis.value, c, |c.auditors|);
        }
      }
    } else {
      MissingIsTrue(ctx, c);
    }
  }

  lemma MissingIsTrue(ctx: Context, c: Credential)
    requires !Complete(c)
    ensures TrueOf(ctx, c, MissingWork)
  {
  }

  lemma OwnReasons(ctx: Context, c: Credential)
    requires Complete(c)
    ensures !SolutionHolds(ctx, c) ==> TrueOf(ctx, c, WrongSolution)
    ensures !Distinct(c.auditors) ==> TrueOf(ctx, c, NotDistinct)
    ensures Distinct(c.auditors) && c.holder in Ids(c.auditors) ==> TrueOf(ctx, c, SelfEndorsement)
    ensures c.generation == 0 && ctx.genesis.None? ==> TrueOf(ctx, c, NoGenesis)
  {
    if !Distinct(c.auditors) && c.auditors != [] {
      if AllNamed(c.auditors) {
        var ids := Ids(c.auditors);
        var i, j :| 0 <= i < j < |ids| && ids[i] == ids[j];
        assert AuditorAt(c, i) && AuditorAt(c, j) && c.auditors[i].id == c.auditors[j].id;
      } else {
        var i :| 0 <= i < |c.auditors| && !c.auditors[i].AuditorSig?;
        assert !AuditorAt(c, i);
      }
    }
    if Distinct(c.auditors) && c.holder in Ids(c.auditors) {
      var i :| 0 <= i < |c.auditors| && Ids(c.auditors)[i] == c.holder;
      assert AuditorAt(c, i) && c.auditors[i].id == c.holder;
    }
  }

  lemma AuditorFails(ctx: Context, c: Credential, i: nat, r: Reason)
    requires AuditorAt(c, i) && c.generation != 0 && FailsBy(ctx, c, c.auditors[i], r)
    ensures TrueOf(ctx, c, r)
  {
  }

  lemma {:induction false} ReasonsBelowAreTrue(ctx: Context, c: Credential, k: nat, depth: nat)
    requires Complete(c) && AllNamed(c.auditors) && k <= |c.auditors|
    ensures c.generation != 0 ==> forall r | r in WalkAuditors(ctx, c, k, depth).reasons :: Applies(ctx, c, r)
    decreases Rank(ctx, c), c, 0, k
  {
    hide Applies, TrueOf, Qualification, QualificationFault, FailsBy, Walk;
    if k > 0 && c.generation != 0 {
      ReasonsBelowAreTrue(ctx, c, k - 1, depth);
      var a := c.auditors[k - 1];
      assert AuditorAt(c, k - 1);
      var fault := QualificationFault(ctx, c, a);
      if fault.Some? {
        FaultIsTrue(ctx, c, a);
        AuditorFails(ctx, c, k - 1, fault.value);
        AppliesHere(ctx, c, fault.value);
      } else {
        FaultlessDescends(ctx, c, a);
        var q := Qualification(ctx, c, a.id).value;
        ReasonsAreTrue(ctx, q, depth + 1);
        forall r | r in Walk(ctx, q, depth + 1).reasons ensures Applies(ctx, c, r) {
          AppliesBelow(ctx, c, k - 1, r);
        }
        if !Walk(ctx, q, depth + 1).pass {
          BrokenBelow(ctx, c, k - 1, depth);
          AppliesHere(ctx, c, BrokenChain);
        }
      }
    }
  }

  lemma BrokenBelow(ctx: Context, c: Credential, i: nat, depth: nat)
    requires AuditorAt(c, i) && c.generation != 0 && Qualification(ctx, c, c.auditors[i].id).Some?
    requires !Walk(ctx, Qualification(ctx, c, c.auditors[i].id).value, depth + 1).pass
    ensures TrueOf(ctx, c, BrokenChain)
  {
    hide Walk, Qualification;
    var q := Qualification(ctx, c, c.auditors[i].id).value;
    DepthDoesNotMatter(ctx, q, depth + 1, 0);
    QualificationIff(ctx, c, c.auditors[i].id, q);
    assert FailsBy(ctx, c, c.auditors[i], BrokenChain);
    AuditorFails(ctx, c, i, BrokenChain);
  }

  // ------------------------------------------------------------------ what is visited

  /** The record of the credential at the end of a path. */
  predicate NodeAt(ctx: Context, c: Credential, depth: nat, path: seq<nat>, n: ChainNode) {
    var q := Follow(ctx, c, path);
    q.Some? && q.value.Credential? && n.generation == q.value.generation && n.holder == q.value.holder &&
    n.depth == depth + |path|
  }

  ghost predicate Visits(ctx: Context, c: Credential, depth: nat, n: ChainNode) {
    exists path :: NodeAt(ctx, c, depth, path, n)
  }

  /** The list starts at the depth, goes at most one level deeper at a time, and does not come back to it. */
  predicate Descends(chain: seq<ChainNode>, depth: nat) {
    && (chain != [] ==> chain[0].depth == depth)
    && forall i | 0 < i < |chain| :: depth < chain[i].depth <= chain[i - 1].depth + 1
  }

  /** Several such lists one after the other, a level below. */
  predicate DescendsBelow(chain: seq<ChainNode>, depth: nat) {
    && (chain != [] ==> chain[0].depth == depth + 1)
    && (forall i | 0 <= i < |chain| :: depth < chain[i].depth)
    && forall i | 0 < i < |chain| :: chain[i].depth <= chain[i - 1].depth + 1
  }

  lemma VisitsBelow(ctx: Context, c: Credential, i: nat, depth: nat, n: ChainNode)
    requires AuditorAt(c, i) && Qualification(ctx, c, c.auditors[i].id).Some?
    requires Visits(ctx, Qualification(ctx, c, c.auditors[i].id).value, depth + 1, n)
    ensures Visits(ctx, c, depth, n)
  {
    hide Qualification, Follow;
    var q := Qualification(ctx, c, c.auditors[i].id).value;
    var path :| NodeAt(ctx, q, depth + 1, path, n);
    FollowOn(ctx, c, i, path);
    assert NodeAt(ctx, c, depth, [i] + path, n);
  }

  ghost predicate AllVisited(ctx: Context, c: Credential, depth: nat, chain: seq<ChainNode>) {
    forall n | n in chain :: Visits(ctx, c, depth, n)
  }

  /** Whatever verification visits lies at the end of a path of auditors, at its depth, and credentials are
    visited before those below them. */
  lemma {:induction false} VisitedAreReached(ctx: Context, c: Credential, depth: nat)
    ensures var chain := Walk(ctx, c, depth).chain;
      Descends(chain, depth) && AllVisited(ctx, c, depth, chain) && (chain == [] <==> !Complete(c))
    decreases Rank(ctx, c), c, 1, 0
  {
    hide Walk, WalkAuditors, AllVisited, Descends, DescendsBelow;
    if Complete(c) && Distinct(c.auditors) {
      VisitedBelow(ctx, c, |c.auditors|, depth);
    }
    OwnNodeFirst(ctx, c, depth);
  }

  /** The list starts with the credential's own record; what lies below follows. */
  lemma OwnNodeFirst(ctx: Context, c: Credential, depth: nat)
    requires Complete(c) && Distinct(c.auditors) ==>
      var rest := WalkAuditors(ctx, c, |c.auditors|, depth).chain;
        DescendsBelow(rest, depth) && AllVisited(ctx, c, depth, rest)
    ensures var chain := Walk(ctx, c, depth).chain;
      Descends(chain, depth) && AllVisited(ctx, c, depth, chain) && (chain == [] <==> !Complete(c))
  {
    hide Visits, WalkAuditors, DescendsBelow;
    if Complete(c) {
      forall n: ChainNode | n.generation == c.generation && n.holder == c.holder && n.depth == depth ensures Visits(ctx, c, depth, n) {
        VisitsSelf(ctx, c, depth, n);
      }
      if Distinct(c.auditors) {
        Deeper(NodeOf(c, depth, Ids(c.auditors), false), WalkAuditors(ctx, c, |c.auditors|, depth).chain, depth);
      }
    }
  }

  lemma VisitsSelf(ctx: Context, c: Credential, depth: nat, n: ChainNode)
    requires c.Credential? && n.generation == c.generation && n.holder == c.holder && n.depth == depth
    ensures Visits(ctx, c, depth, n)
  {
    assert NodeAt(ctx, c, depth, [], n);
  }

  lemma Deeper(n: ChainNode, rest: seq<ChainNode>, depth: nat)
    requires n.depth == depth && DescendsBelow(rest, depth)
    ensures Descends([n] + rest, depth)
  {
  }

  lemma BelowMore(a: seq<ChainNode>, b: seq<ChainNode>, depth: nat)
    requires DescendsBelow(a, depth) && Descends(b, depth + 1)
    ensures DescendsBelow(a + b, depth)
  {
  }

  lemma {:induction false} VisitedBelow(ctx: Context, c: Credential, k: nat, depth: nat)
    requires Complete(c) && AllNamed(c.auditors) && k <= |c.auditors|
    ensures var chain := WalkAuditors(ctx, c, k, depth).chain; DescendsBelow(chain, depth) && AllVisited(ctx, c, depth, chain)
    decreases Rank(ctx, c), c, 0, k
  {
    hide Visits, Qualification, QualificationFault, Walk, DescendsBelow;
    if k > 0 {
      VisitedBelow(ctx, c, k - 1, depth);
      var a := c.auditors[k - 1];
      assert AuditorAt(c, k - 1);
      if QualificationFault(ctx, c, a).None? {
        FaultlessDescends(ctx, c, a);
        var q := Qualification(ctx, c, a.id).value;
        VisitedAreReached(ctx, q, depth + 1);
        BelowMore(WalkAuditors(ctx, c, k - 1, depth).chain, Walk(ctx, q, depth + 1).chain, depth);
        forall n | n in Walk(ctx, q, depth + 1).chain ensures Visits(ctx, c, depth, n) {
          VisitsBelow(ctx, c, k - 1, depth, n);
        }
      }
    } else {
      NothingBelow(depth);
    }
  }

  lemma NothingBelow(depth: nat)
    ensures DescendsBelow([], depth)
  {
  }

  /** The record of an accepted credential names its auditors, and marks it as a root at generation 0. */
  predicate FullNode(ctx: Context, c: Credential, depth: nat, path: seq<nat>, n: ChainNode) {
    && NodeAt(ctx, c, depth, path, n)
    && var q := Follow(ctx, c, path).value;
       && |n.auditorIds| == |q.auditors| && (n.root <==> q.generation == 0)
       && forall i | 0 <= i < |q.auditors| :: q.auditors[i].AuditorSig? && n.auditorIds[i] == q.auditors[i].id
  }

  ghost predicate Lists(ctx: Context, c: Credential, depth: nat, path: seq<nat>, chain: seq<ChainNode>) {
    exists k :: 0 <= k < |chain| && FullNode(ctx, c, depth, path, chain[k])
  }

  /** And when a credential is accepted, every path of auditors has its end visited. */
  lemma {:induction false} AllPathsVisited(ctx: Context, c: Credential, depth: nat, path: seq<nat>)
    requires Walk(ctx, c, depth).pass && |path| <= c.generation && Follow(ctx, c, path).Some?
    ensures Lists(ctx, c, depth, path, Walk(ctx, c, depth).chain)
    decreases |path|
  {
    if path == [] {
      assert FullNode(ctx, c, depth, [], Walk(ctx, c, depth).chain[0]);
    } else {
      hide Walk, Qualification, Lists, Follow, QualificationFault;
      FirstStep(ctx, c, depth, path);
      var q := Qualification(ctx, c, c.auditors[path[0]].id).value;
      AllPathsVisited(ctx, q, depth + 1, path[1..]);
      ListsBelow(ctx, c, depth, path);
    }
  }

  lemma FirstStep(ctx: Context, c: Credential, depth: nat, path: seq<nat>)
    requires Walk(ctx, c, depth).pass && 0 < |path| <= c.generation && Follow(ctx, c, path).Some?
    ensures AuditorAt(c, path[0]) && QualificationFault(ctx, c, c.auditors[path[0]]).None?
    ensures var q := Qualification(ctx, c, c.auditors[path[0]].id);
      && q.Some? && q.value.Credential? && q.value.generation == c.generation - 1
      && Walk(ctx, q.value, depth + 1).pass && Follow(ctx, q.value, path[1..]) == Follow(ctx, c, path)
  {
    PassedAll(ctx, c, |c.auditors|, depth, path[0]);
    hide Walk, WalkAuditors, QualificationFault, Qualification;
    QualifierIsOlder(ctx, c, path[0]);
  }

  lemma ListsBelow(ctx: Context, c: Credential, depth: nat, path: seq<nat>)
    requires Walk(ctx, c, depth).pass && path != [] && c.generation != 0
    requires AuditorAt(c, path[0]) && QualificationFault(ctx, c, c.auditors[path[0]]).None?
    requires Qualification(ctx, c, c.auditors[path[0]].id).Some?
    requires var q := Qualification(ctx, c, c.auditors[path[0]].id).value;
      Lists(ctx, q, depth + 1, path[1..], Walk(ctx, q, depth + 1).chain)
    ensures Lists(ctx, c, depth, path, Walk(ctx, c, depth).chain)
  {
    hide Walk, WalkAuditors, QualificationFault, Qualification, FullNode, Follow;
    var i := path[0];
    assert path == [i] + path[1..];
    var q := Qualification(ctx, c, c.auditors[i].id).value;
    var below, chain := Walk(ctx, q, depth + 1).chain, Walk(ctx, c, depth).chain;
    var k :| 0 <= k < |below| && FullNode(ctx, q, depth + 1, path[1..], below[k]);
    FullNodeBelow(ctx, c, depth, i, path[1..], below[k]);
    WalkHolds(ctx, c, depth);
    ChainInside(ctx, c, |c.auditors|, depth, i);
    assert below[k] in WalkAuditors(ctx, c, |c.auditors|, depth).chain;
    assert below[k] in chain;
    var m :| 0 <= m < |chain| && chain[m] == below[k];
  }

  lemma WalkHolds(ctx: Context, c: Credential, depth: nat)
    requires Walk(ctx, c, depth).pass && c.generation != 0
    ensures Complete(c) && AllNamed(c.auditors) && WalkAuditors(ctx, c, |c.auditors|, depth).pass
    ensures forall n | n in WalkAuditors(ctx, c, |c.auditors|, depth).chain :: n in Walk(ctx, c, depth).chain
  {
  }

  lemma {:induction false} ChainInside(ctx: Context, c: Credential, k: nat, depth: nat, i: nat)
    requires Complete(c) && AllNamed(c.auditors) && i < k <= |c.auditors| && WalkAuditors(ctx, c, k, depth).pass
    ensures QualificationFault(ctx, c, c.auditors[i]).None? && Qualification(ctx, c, c.auditors[i].id).Some?
    ensures forall n | n in Walk(ctx, Qualification(ctx, c, c.auditors[i].id).value, depth + 1).chain ::
          n in WalkAuditors(ctx, c, k, depth).chain
    decreases k
  {
    hide Walk, QualificationFault;
    PassedAll(ctx, c, k, depth, i);
    FaultlessDescends(ctx, c, c.auditors[i]);
    if i < k - 1 {
      ChainInside(ctx, c, k - 1, depth, i);
    }
  }

  lemma QualifierIsOlder(ctx: Context, c: Credential, i: nat)
    requires AuditorAt(c, i) && QualificationFault(ctx, c, c.auditors[i]).None?
    ensures var q := Qualification(ctx, c, c.auditors[i].id);
        q.Some? && q.value.Credential? && q.value.generation == c.generation - 1
  {
  }

  lemma FullNodeBelow(ctx: Context, c: Credential, depth: nat, i: nat, path: seq<nat>, n: ChainNode)
    requires AuditorAt(c, i) && Qualification(ctx, c, c.auditors[i].id).Some?
    requires FullNode(ctx, Qualification(ctx, c, c.auditors[i].id).value, depth + 1, path, n)
    ensures FullNode(ctx, c, depth, [i] + path, n)
  {
    hide Qualification, Follow;
    FollowOn(ctx, c, i, path);
  }
}
