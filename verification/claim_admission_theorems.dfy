/** What admission guarantees about policies, scores, evidence and relations. */
module AdmissionTheorems {

  import opened Wrappers
  import opened PredicateRegistry
  import opened ClosedWalk
  import opened ClaimAdmission

  // ---------------------------------------------------------- the walk as a cascade

  function Position(step: ClaimStep): nat {
    match step
    case Vocabulary => 0
    case Secrets => 1
    case Provenanced => 2
    case Sourced => 3
    case Seeding => 4
    case ScoreFloor => 5
    case UserLevel => 6
    case Authority => 7
    case Relations => 8
    case Grounding => 9
  }

  lemma {:induction false} StepsAreComplete()
    ensures Distinct(ClaimWalk()) && Complete(ClaimWalk(), ClaimSteps())
  {
    var steps := ClaimWalk();
    assert forall i :: 0 <= i < |steps| ==> Position(steps[i].id) == i;
    forall id | id in ClaimSteps() ensures ClosedWalk.Registered(steps, id) {
      assert steps[Position(id)].id == id;
    }
  }

  lemma {:induction false} StepsJudge(s: Case)
    ensures forall i :: 0 <= i < 10 ==> ClaimWalk()[i].judge(s) == Judgements(s)[i]
  {
  }

  /** The documented order of questions: the first refusal of the nine refusing steps, then
      the ground's hold, then an admission. */
  function Cascade(js: seq<Judgement>, built: Verdict): Verdict
    requires |js| == 10
  {
    match FaultIn(js[..9])
    case Some(reason) => Refuse(reason)
    case None => if js[9].Hold? then OnHold(js[9].reason) else built
  }

  lemma {:induction false} FaultInMeans(js: seq<Judgement>)
    ensures FaultIn(js) == None <==> forall i :: 0 <= i < |js| ==> !js[i].Fault?
    decreases |js|
  {
    if js != [] {
      FaultInMeans(js[1..]);
      assert forall i :: 0 < i < |js| ==> js[i] == js[1..][i - 1];
    }
  }

  lemma {:induction false} LastDecides(js: seq<Judgement>)
    requires js != [] && (forall i :: 0 <= i < |js| - 1 ==> !js[i].Hold?)
    ensures FaultIn(js[..|js| - 1]).Some? ==> FaultIn(js) == FaultIn(js[..|js| - 1])
    ensures FaultIn(js[..|js| - 1]) == None ==>
      var last := js[|js| - 1];
      (FaultIn(js) == if last.Fault? then Some(last.reason) else None) &&
      (HoldIn(js) == if last.Hold? then Some(last.reason) else None)
    decreases |js|
  {
    if |js| > 1 {
      LastDecides(js[1..]);
      assert js[1..][..|js| - 2] == js[..|js| - 1][1..];
    }
  }

  lemma {:induction false} OnlyTheGroundHolds(s: Case)
    ensures forall i :: 0 <= i < 9 ==> !Judgements(s)[i].Hold?
  {
  }

  lemma {:induction false} GroundAnswers(s: Case)
    requires !Judgements(s)[8].Fault?
    ensures !Judgements(s)[9].Fault? && BuildAdmitted(s).Admit?
  {
  }

  lemma {:induction false} WalkedCascades(js: seq<Judgement>, built: Verdict)
    requires |js| == 10 && (forall i :: 0 <= i < 9 ==> !js[i].Hold?)
    requires !js[8].Fault? ==> !js[9].Fault?
    ensures Cascade(js, built) ==
      if FaultIn(js).Some? then Refuse(FaultIn(js).value) else if HoldIn(js).Some? then OnHold(HoldIn(js).value) else built
    ensures FaultIn(js[..9]) == None ==> !js[8].Fault?
  {
    LastDecides(js);
    FaultInMeans(js[..9]);
    assert js[..9][8] == js[8];
  }

  lemma {:induction false} JudgeByJudgements(s: Case)
    ensures Judge(s) ==
      var js := Judgements(s);
      if FaultIn(js).Some? then Refuse(FaultIn(js).value)
      else if HoldIn(js).Some? then OnHold(HoldIn(js).value)
      else BuildAdmitted(s)
  {
    StepsAreComplete();
    StepsJudge(s);
    WalkByJudgements(s, ClaimWalk(), ClaimSteps(), WalkFault, Judgements(s));
  }

  /** The closed walk is the cascade, and building the claim never takes an admission back. */
  lemma {:induction false} WalkIsTheCascade(s: Case)
    ensures Judge(s) == Cascade(Judgements(s), BuildAdmitted(s))
    ensures FaultIn(Judgements(s)[..9]) == None ==> !Judgements(s)[9].Fault? && BuildAdmitted(s).Admit?
  {
    JudgeByJudgements(s);
    OnlyTheGroundHolds(s);
    if !Judgements(s)[8].Fault? {
      GroundAnswers(s);
    }
    WalkedCascades(Judgements(s), BuildAdmitted(s));
  }

  lemma {:induction false} CascadeAdmits(js: seq<Judgement>, built: Verdict)
    requires |js| == 10 && (FaultIn(js[..9]) == None ==> !js[9].Fault? && built.Admit?)
    ensures Cascade(js, built).Admit? <==> AllPass(js)
    ensures Cascade(js, built).Admit? ==> Cascade(js, built) == built
  {
    FaultInMeans(js[..9]);
    assert forall i :: 0 <= i < 9 ==> js[..9][i] == js[i];
  }

  ghost predicate AllPass(js: seq<Judgement>)
    requires |js| == 10
  {
    (forall i :: 0 <= i < 9 ==> !js[i].Fault?) && js[9].Pass?
  }

  /** What an admission rests on. */
  lemma {:induction false} AdmitGives(s: Case)
    requires Judge(s).Admit?
    ensures Judge(s) == BuildAdmitted(s) && Judgements(s)[9].Pass?
  {
    WalkIsTheCascade(s);
    CascadeAdmits(Judgements(s), BuildAdmitted(s));
  }

  // ------------------------------------------------------------------- relations

  lemma {:induction false} RelateFaults(s: Case, g: Grounds, authority: AuthorityLevel, relations: seq<ProposedRelation>)
    ensures Relate(s, g, authority, relations).Ok? <==> forall r :: r in relations ==> RelationFault(s, g, r) == None
    decreases |relations|
  {
    if relations != [] {
      var before, last := relations[..|relations| - 1], relations[|relations| - 1];
      RelateFaults(s, g, authority, before);
      assert forall r :: r in relations <==> r in before || r == last;
    }
  }

  lemma {:induction false} RelateBuilds(s: Case, g: Grounds, authority: AuthorityLevel, relations: seq<ProposedRelation>)
    requires Relate(s, g, authority, relations).Ok?
    ensures
      var built := Relate(s, g, authority, relations).value.relations;
      |built| == |relations| && forall i :: 0 <= i < |relations| ==> built[i] == Built(s.proposal.claim, relations[i])
    decreases |relations|
  {
    if relations != [] {
      RelateBuilds(s, g, authority, relations[..|relations| - 1]);
    }
  }

  lemma {:induction false} RelateNotes(s: Case, g: Grounds, authority: AuthorityLevel, relations: seq<ProposedRelation>)
    requires Relate(s, g, authority, relations).Ok?
    ensures
      var related := Relate(s, g, authority, relations).value;
      && (related.outranked <==> exists r :: r in relations && Outranks(s, r, authority))
      && (forall id :: id in related.conflicts <==> exists r :: r in relations && Conflicts(s, g, r) && r.to == id)
    decreases |relations|
  {
    if relations != [] {
      var before, last := relations[..|relations| - 1], relations[|relations| - 1];
      RelateNotes(s, g, authority, before);
      assert forall r :: r in relations <==> r in before || r == last;
    }
  }

  lemma {:induction false} AvailableMeans(cited: seq<Id>, sources: map<Id, SourceState>)
    ensures FirstUnavailable(cited, sources) == None <==> forall id :: id in cited ==> id in sources && sources[id] == Available
    decreases |cited|
  {
    if cited != [] {
      AvailableMeans(cited[1..], sources);
      assert forall id :: id in cited <==> id == cited[0] || id in cited[1..];
    }
  }

  lemma {:induction false} AdmittedIsRelated(s: Case)
    requires Judge(s).Admit?
    ensures GroundsOf(s).authority.Some?
    ensures
      var a, g := Judge(s).admitted, GroundsOf(s);
      var related := Relate(s, g, g.authority.value, s.proposal.relations);
      && related.Ok? && a.authority == g.authority.value && a.sourcing == g.sourcing && a.claim == s.proposal.claim
      && a.relations == related.value.relations && a.conflicts == related.value.conflicts
      && a.corrects == (if g.correcting then Corrected(s.proposal.relations) else [])
      && (related.value.outranked ==> Reviewed(s.proposal))
  {
    AdmitGives(s);
  }

  /** What an admission may relate to. Every target is known, in the claim's own scope and
      not the claim itself; a user's claim supersedes no supplier's; and without a review
      it supersedes nothing of higher authority. */
  lemma {:induction false} AdmittedRelationsAreAllowed(s: Case, r: ProposedRelation)
    requires Judge(s).Admit? && r in s.proposal.relations
    ensures r.to in s.context.targets
    ensures
      var a, target := Judge(s).admitted, s.context.targets[r.to];
      && r.to != a.claim.id && target.scope == a.claim.scope
      && (r.kind == Supersedes && a.sourcing == User ==> target.sourcing != Supplier)
      && (r.kind == Supersedes && !Reviewed(s.proposal) ==> Rank(target.authority) <= Rank(a.authority))
  {
    AdmittedIsRelated(s);
    var g := GroundsOf(s);
    RelateFaults(s, g, g.authority.value, s.proposal.relations);
    RelateNotes(s, g, g.authority.value, s.proposal.relations);
    assert RelationFault(s, g, r) == None;
    assert !Reviewed(s.proposal) ==> !Outranks(s, r, g.authority.value);
  }

  lemma {:induction false} CorrectedMeans(relations: seq<ProposedRelation>)
    ensures forall id :: id in Corrected(relations) <==> exists r :: r in relations && r.to == id && (r.kind == Supersedes || r.kind == Contradicts)
    decreases |relations|
  {
    if relations != [] {
      CorrectedMeans(relations[1..]);
      assert forall r :: r in relations <==> r == relations[0] || r in relations[1..];
    }
  }

  /** Every relation asked for is carried, from the claim and in order. */
  lemma {:induction false} AdmittedRelationsAreCarried(s: Case)
    requires Judge(s).Admit?
    ensures
      var a, asked := Judge(s).admitted, s.proposal.relations;
      |a.relations| == |asked| &&
      forall i :: 0 <= i < |asked| ==> a.relations[i] == ClaimRelation(s.proposal.claim.id, asked[i].kind, asked[i].to, s.proposal.claim.provenance)
  {
    AdmittedIsRelated(s);
    RelateBuilds(s, GroundsOf(s), GroundsOf(s).authority.value, s.proposal.relations);
  }

  /** A correction is an honoured statement about claims it supersedes or contradicts; its
      conflicts are the supplier claims it contradicts, and nothing else has any. */
  lemma {:induction false} CorrectionsKeepConflicts(s: Case, id: Id)
    requires Judge(s).Admit?
    ensures
      var a, asked := Judge(s).admitted, s.proposal.relations;
      && (id in a.corrects <==>
            HasHonoured(s.proposal) && exists r :: r in asked && r.to == id && (r.kind == Supersedes || r.kind == Contradicts))
      && (id in a.conflicts <==>
            HasHonoured(s.proposal) && exists r :: r in asked && r.to == id && SupplierContradicted(s, r))
  {
    AdmittedIsRelated(s);
    var asked, g := s.proposal.relations, GroundsOf(s);
    RelateNotes(s, g, g.authority.value, asked);
    CorrectedMeans(asked);
    forall r | r in asked ensures Conflicts(s, g, r) <==> HasHonoured(s.proposal) && SupplierContradicted(s, r) {
      assert r.kind == Contradicts ==> r.to in Corrected(asked);
    }
  }

  ghost predicate SupplierContradicted(s: Case, r: ProposedRelation) {
    r.kind == Contradicts && r.to in s.context.targets && s.context.targets[r.to].sourcing == Supplier
  }

  // ------------------------------------------------------------- exactly what admits

  ghost predicate CleanOfSecrets(s: Case) {
    var c := s.proposal.claim;
    && (c.value.Text? ==> s.scan(c.value.text) == None)
    && (c.condition.Some? ==> s.scan(c.condition.value) == None)
    && (c.slot.Some? ==> s.scan(c.slot.value) == None)
    && s.scan(c.subject.key) == None
  }

  ghost predicate CitesOnlyAvailable(s: Case) {
    forall id :: id in Cited(s.proposal) ==> id in s.context.sources && s.context.sources[id] == Available
  }

  ghost predicate SeedsAreNotStatements(s: Case) {
    SeedsOf(s.proposal.evidence) != [] ==> forall e :: e in s.proposal.evidence ==> !e.UserStatement?
  }

  ghost predicate StatementsAreUsers(s: Case) {
    forall e :: e in s.proposal.evidence && Honoured(s.proposal, e) ==> IsUser(e.authority)
  }

  ghost predicate RelatesProperly(s: Case, g: Grounds) {
    forall r :: r in s.proposal.relations ==> RelationFault(s, g, r) == None
  }

  ghost predicate OutranksOnlyReviewed(s: Case, authority: AuthorityLevel) {
    Reviewed(s.proposal) || forall r :: r in s.proposal.relations ==> !Outranks(s, r, authority)
  }

  /** A proposal is admitted exactly when all of this holds, in no particular order. */
  ghost predicate Admissible(s: Case) {
    var g := GroundsOf(s);
    && Validate(s.proposal.claim, s.registry, s.nfc) == None
    && CleanOfSecrets(s)
    && s.proposal.evidence != []
    && CitesOnlyAvailable(s)
    && SeedsAreNotStatements(s)
    && !BelowFloor(s)
    && StatementsAreUsers(s)
    && g.authority.Some?
    && RelatesProperly(s, g)
    && OutranksOnlyReviewed(s, g.authority.value)
    && Grounded(s, g, g.authority.value)
  }

  lemma {:induction false} EarlyStepsMean(s: Case)
    ensures VocabularyStep(s).Fault? <==> Validate(s.proposal.claim, s.registry, s.nfc) != None
    ensures SecretsStep(s).Fault? <==> !CleanOfSecrets(s)
    ensures SourcesStep(s).Fault? <==> !CitesOnlyAvailable(s)
    ensures SeedStep(s).Fault? <==> !SeedsAreNotStatements(s)
    ensures UserLevelStep(s).Fault? <==> !StatementsAreUsers(s)
  {
    AvailableMeans(Cited(s.proposal), s.context.sources);
  }

  lemma {:induction false} LateStepsMean(s: Case)
    requires GroundsOf(s).authority.Some?
    ensures RelationsStep(s).Fault? <==> !RelatesProperly(s, GroundsOf(s))
    ensures RelatesProperly(s, GroundsOf(s)) ==>
      (GroundStep(s).Pass? <==>
       OutranksOnlyReviewed(s, GroundsOf(s).authority.value) && Grounded(s, GroundsOf(s), GroundsOf(s).authority.value))
    ensures RelatesProperly(s, GroundsOf(s)) ==> !GroundStep(s).Fault?
  {
    var g, authority := GroundsOf(s), GroundsOf(s).authority.value;
    RelateFaults(s, g, authority, s.proposal.relations);
    if RelatesProperly(s, g) {
      RelateNotes(s, g, authority, s.proposal.relations);
    }
  }

  lemma {:induction false} PassesMean(s: Case)
    ensures AllPass(Judgements(s)) <==> Admissible(s)
  {
    var js := Judgements(s);
    assert js[0] == VocabularyStep(s) && js[1] == SecretsStep(s) && js[2] == ProvenanceStep(s);
    assert js[3] == SourcesStep(s) && js[4] == SeedStep(s) && js[5] == ScoreFloorStep(s);
    assert js[6] == UserLevelStep(s) && js[7] == AuthorityStep(s) && js[8] == RelationsStep(s);
    EarlyStepsMean(s);
    if GroundsOf(s).authority.Some? {
      LateStepsMean(s);
      assert AllPass(js) <==>
        (!js[0].Fault? && !js[1].Fault? && !js[2].Fault? && !js[3].Fault? && !js[4].Fault? && !js[5].Fault? &&
         !js[6].Fault? && !js[7].Fault? && !js[8].Fault? && js[9].Pass?);
    }
  }

  lemma {:induction false} AdmitsIff(s: Case)
    ensures Judge(s).Admit? <==> Admissible(s)
  {
    WalkIsTheCascade(s);
    CascadeAdmits(Judgements(s), BuildAdmitted(s));
    PassesMean(s);
  }

  // -------------------------------------------------------------- stricter policies

  /** Lower ceilings, a higher floor, and fewer or harder grounds. */
  ghost predicate Stricter(q: Policy, p: Policy) {
    && LowerCeilings(q, p)
    && (p.scoreFloor.Some? ==> q.scoreFloor.Some? && p.scoreFloor.value <= q.scoreFloor.value)
    && (forall i :: 0 <= i < |q.qualified| ==> HarderThanSome(q.qualified[i], p))
    && (forall seed :: seed in q.seeds ==> seed in p.seeds)
  }

  ghost predicate LowerCeilings(q: Policy, p: Policy) {
    forall kind :: PolicyCeiling(p, kind).Some? ==> Rank(PolicyCeiling(q, kind).value) <= Rank(PolicyCeiling(p, kind).value)
  }

  ghost predicate HarderThanSome(c: Qualification, p: Policy) {
    exists j :: 0 <= j < |p.qualified| && p.qualified[j].ns == c.ns && p.qualified[j].name == c.name &&
                Rank(p.qualified[j].minAuthority) <= Rank(c.minAuthority)
  }

  ghost predicate NoMore(under: Option<AuthorityLevel>, over: Option<AuthorityLevel>) {
    under.Some? == over.Some? && (over.Some? ==> Rank(under.value) <= Rank(over.value))
  }

  lemma {:induction false} ItemEarnsLess(e: Evidence, q: Policy, p: Policy, honoured: bool, correcting: bool)
    requires LowerCeilings(q, p)
    ensures NoMore(ItemLevel(e, q, honoured, correcting), ItemLevel(e, p, honoured, correcting))
  {
    assert PolicyCeiling(p, EvidenceKindOf(e)).Some? <==> PolicyCeiling(q, EvidenceKindOf(e)).Some?;
  }

  lemma {:induction false} EarnsLess(evidence: seq<Evidence>, q: Policy, p: Policy, honoured: bool, correcting: bool)
    requires LowerCeilings(q, p)
    ensures NoMore(Earned(evidence, q, honoured, correcting), Earned(evidence, p, honoured, correcting))
    decreases |evidence|
  {
    if evidence != [] {
      ItemEarnsLess(evidence[0], q, p, honoured, correcting);
      EarnsLess(evidence[1..], q, p, honoured, correcting);
    }
  }

  /** The relations come out the same under less authority, except that more is outranked. */
  lemma {:induction false} RelatesLess(s: Case, t: Case, g: Grounds, h: Grounds, less: AuthorityLevel, more: AuthorityLevel, relations: seq<ProposedRelation>)
    requires s.context == t.context && s.proposal.claim == t.proposal.claim
    requires g.sourcing == h.sourcing && g.correcting == h.correcting && Rank(less) <= Rank(more)
    ensures
      var under, over := Relate(s, g, less, relations), Relate(t, h, more, relations);
      if over.Err? then under == over
      else under.Ok? && under.value.relations == over.value.relations && under.value.conflicts == over.value.conflicts &&
           (over.value.outranked ==> under.value.outranked)
    decreases |relations|
  {
    if relations != [] {
      RelatesLess(s, t, g, h, less, more, relations[..|relations| - 1]);
      assert RelationFault(s, g, relations[|relations| - 1]) == RelationFault(t, h, relations[|relations| - 1]);
    }
  }

  function Favour(v: Verdict): nat { if v.Refuse? then 0 else if v.OnHold? then 1 else 2 }

  function Under(s: Case, q: Policy): Case { s.(policy := q) }

  lemma {:induction false} GroundsEarnLess(s: Case, q: Policy)
    requires LowerCeilings(q, s.policy)
    ensures
      var under, over := GroundsOf(Under(s, q)), GroundsOf(s);
      under.correcting == over.correcting && under.ownData == over.ownData && under.sourcing == over.sourcing &&
      NoMore(under.authority, over.authority)
  {
    var p := s.proposal;
    EarnsLess(p.evidence, q, s.policy, HasHonoured(p), HasHonoured(p) && Corrected(p.relations) != []);
  }

  lemma {:induction false} EarlyStepsIgnorePolicy(s: Case, q: Policy)
    ensures VocabularyStep(Under(s, q)) == VocabularyStep(s) && SecretsStep(Under(s, q)) == SecretsStep(s)
    ensures ProvenanceStep(Under(s, q)) == ProvenanceStep(s) && SourcesStep(Under(s, q)) == SourcesStep(s)
    ensures SeedStep(Under(s, q)) == SeedStep(s) && UserLevelStep(Under(s, q)) == UserLevelStep(s)
  {
  }

  lemma {:induction false} LateStepsRefuseAlike(s: Case, q: Policy)
    requires LowerCeilings(q, s.policy)
    ensures AuthorityStep(Under(s, q)) == AuthorityStep(s) && RelationsStep(Under(s, q)) == RelationsStep(s)
  {
    var t := Under(s, q);
    GroundsEarnLess(s, q);
    if GroundsOf(s).authority.Some? {
      RelatesLess(t, s, GroundsOf(t), GroundsOf(s), GroundsOf(t).authority.value, GroundsOf(s).authority.value, s.proposal.relations);
    }
  }

  /** Only the floor can tell the refusals of two policies apart that differ by ceilings. */
  lemma {:induction false} RefusalsAreAlike(s: Case, q: Policy)
    requires LowerCeilings(q, s.policy)
    ensures forall i :: 0 <= i < 9 && i != 5 ==> Judgements(Under(s, q))[i] == Judgements(s)[i]
  {
    EarlyStepsIgnorePolicy(s, q);
    LateStepsRefuseAlike(s, q);
  }

  lemma {:induction false} QualifiesLess(q: Policy, p: Policy, c: Claim, less: AuthorityLevel, more: AuthorityLevel)
    requires Stricter(q, p) && Rank(less) <= Rank(more) && Qualifies(q, c, less)
    ensures Qualifies(p, c, more)
  {
    var i :| 0 <= i < |q.qualified| && q.qualified[i].ns == c.predicate_.ns && q.qualified[i].name == c.predicate_.name &&
      Rank(less) >= Rank(q.qualified[i].minAuthority);
    assert HarderThanSome(q.qualified[i], p);
  }

  lemma {:induction false} GroundsNeedNoLess(s: Case, q: Policy)
    requires Stricter(q, s.policy)
    ensures GroundStep(Under(s, q)).Pass? ==> GroundStep(s).Pass?
  {
    var t := Under(s, q);
    var p := s.proposal;
    var g, h := GroundsOf(s), GroundsOf(t);
    GroundsEarnLess(s, q);
    if GroundStep(t).Pass? {
      RelatesLess(t, s, h, g, h.authority.value, g.authority.value, p.relations);
      if Qualifies(q, p.claim, h.authority.value) {
        QualifiesLess(q, s.policy, p.claim, h.authority.value, g.authority.value);
      }
    }
  }

  lemma {:induction false} FloorRefusesMore(s: Case, q: Policy)
    requires Stricter(q, s.policy)
    ensures BelowFloor(s) ==> BelowFloor(Under(s, q))
  {
    if BelowFloor(s) {
      var e :| e in s.proposal.evidence && e.ModelScore? && e.score < s.policy.scoreFloor.value;
      assert e in Under(s, q).proposal.evidence;
    }
  }

  lemma {:induction false} CascadeFavours(js: seq<Judgement>, ks: seq<Judgement>, built: Verdict, other: Verdict)
    requires |js| == 10 == |ks|
    requires forall i :: 0 <= i < 9 && js[i].Fault? ==> ks[i].Fault?
    requires ks[9].Pass? ==> js[9].Pass?
    requires FaultIn(js[..9]) == None ==> !js[9].Fault? && built.Admit?
    requires FaultIn(ks[..9]) == None ==> !ks[9].Fault?
    ensures Favour(Cascade(ks, other)) <= Favour(Cascade(js, built))
  {
    FaultInMeans(js[..9]);
    FaultInMeans(ks[..9]);
    if FaultIn(js[..9]).Some? {
      var i :| 0 <= i < 9 && js[..9][i].Fault?;
      assert js[i].Fault? && ks[..9][i].Fault?;
    }
  }

  /** A stricter policy never decides more favourably: a refusal stays a refusal, and a
      hold never becomes an admission. */
  lemma {:induction false} StricterNeverFavours(s: Case, q: Policy)
    requires Stricter(q, s.policy)
    ensures Favour(Judge(Under(s, q))) <= Favour(Judge(s))
  {
    StricterFaults(s, q);
    WalkIsTheCascade(s);
    WalkIsTheCascade(Under(s, q));
    CascadeFavours(Judgements(s), Judgements(Under(s, q)), BuildAdmitted(s), BuildAdmitted(Under(s, q)));
  }

  lemma {:induction false} StricterFaults(s: Case, q: Policy)
    requires Stricter(q, s.policy)
    ensures forall i :: 0 <= i < 9 && Judgements(s)[i].Fault? ==> Judgements(Under(s, q))[i].Fault?
    ensures Judgements(Under(s, q))[9].Pass? ==> Judgements(s)[9].Pass?
  {
    RefusalsAreAlike(s, q);
    FloorRefusesMore(s, q);
    FloorSaysTwoThings(s);
    FloorSaysTwoThings(Under(s, q));
    GroundsNeedNoLess(s, q);
  }

  /** What the stricter policy admits, the laxer one admits with the same relations,
      corrections and conflicts, at no less authority. */
  lemma {:induction false} StricterAdmitsTheSame(s: Case, q: Policy)
    requires Stricter(q, s.policy) && Judge(Under(s, q)).Admit?
    ensures Judge(s).Admit?
    ensures
      var under, over := Judge(Under(s, q)).admitted, Judge(s).admitted;
      && Rank(under.authority) <= Rank(over.authority) && under.sourcing == over.sourcing
      && under.relations == over.relations && under.corrects == over.corrects && under.conflicts == over.conflicts
  {
    var t := Under(s, q);
    StricterNeverFavours(s, q);
    AdmittedIsRelated(s);
    AdmittedIsRelated(t);
    GroundsEarnLess(s, q);
    RelatesLess(t, s, GroundsOf(t), GroundsOf(s), GroundsOf(t).authority.value, GroundsOf(s).authority.value, s.proposal.relations);
  }

  /** Lowering ceilings alone refuses nothing new: the refusals are the very same. */
  lemma {:induction false} CeilingsOnlyHold(s: Case, ceilings: seq<Ceiling>)
    requires LowerCeilings(s.policy.(ceilings := ceilings), s.policy)
    ensures
      var t := Under(s, s.policy.(ceilings := ceilings));
      Judge(t).Refuse? == Judge(s).Refuse? && (Judge(s).Refuse? ==> Judge(t) == Judge(s))
  {
    var t := Under(s, s.policy.(ceilings := ceilings));
    RefusalsAreAlike(s, s.policy.(ceilings := ceilings));
    assert BelowFloor(t) == BelowFloor(s);
    assert Judgements(t)[..9] == Judgements(s)[..9];
    WalkIsTheCascade(s);
    WalkIsTheCascade(t);
  }

  // -------------------------------------------------------------------- the scores

  ghost predicate SameButScore(e: Evidence, f: Evidence) {
    e == f || (e.ModelScore? && f.ModelScore? && e.model == f.model && e.topic == f.topic)
  }

  /** Item by item the same, scores aside. */
  ghost predicate SameButScores(a: seq<Evidence>, b: seq<Evidence>)
    decreases |a|
  {
    if a == [] then b == [] else b != [] && SameButScore(a[0], b[0]) && SameButScores(a[1..], b[1..])
  }

  lemma {:induction false} SameLists(a: seq<Evidence>, b: seq<Evidence>)
    requires SameButScores(a, b)
    ensures SeedsOf(a) == SeedsOf(b) && SpanSources(a) == SpanSources(b)
    decreases |a|
  {
    if a != [] {
      SameLists(a[1..], b[1..]);
    }
  }

  lemma {:induction false} SameEarnings(a: seq<Evidence>, b: seq<Evidence>, p: Policy, honoured: bool, correcting: bool)
    requires SameButScores(a, b)
    ensures Earned(a, p, honoured, correcting) == Earned(b, p, honoured, correcting)
    decreases |a|
  {
    if a != [] {
      SameEarnings(a[1..], b[1..], p, honoured, correcting);
    }
  }

  lemma {:induction false} SameOthers(a: seq<Evidence>, b: seq<Evidence>, e: Evidence)
    requires SameButScores(a, b) && !e.ModelScore?
    ensures |a| == |b| && (e in a <==> e in b)
    decreases |a|
  {
    if a != [] {
      SameOthers(a[1..], b[1..], e);
      assert e in a <==> e == a[0] || e in a[1..];
      assert e in b <==> e == b[0] || e in b[1..];
    }
  }

  function Rescored(s: Case, evidence: seq<Evidence>): Case {
    s.(proposal := s.proposal.(evidence := evidence))
  }

  lemma {:induction false} SameHonours(s: Case, evidence: seq<Evidence>)
    requires SameButScores(s.proposal.evidence, evidence)
    ensures HasHonoured(Rescored(s, evidence).proposal) == HasHonoured(s.proposal)
    ensures Reviewed(Rescored(s, evidence).proposal) == Reviewed(s.proposal)
    ensures UserLevelStep(Rescored(s, evidence)) == UserLevelStep(s)
    ensures SeedStep(Rescored(s, evidence)) == SeedStep(s)
  {
    var a, t := s.proposal.evidence, Rescored(s, evidence);
    SameLists(a, evidence);
    forall e: Evidence | !e.ModelScore? ensures e in a <==> e in evidence {
      SameOthers(a, evidence, e);
    }
    HonouredIsIn(s.proposal);
    HonouredIsIn(t.proposal);
    assert forall e :: Honoured(t.proposal, e) == Honoured(s.proposal, e);
  }

  lemma {:induction false} HonouredIsIn(p: ClaimProposal)
    ensures HasHonoured(p) <==> exists e :: e in p.evidence && Honoured(p, e)
  {
    if HasHonoured(p) {
      var i :| 0 <= i < |p.evidence| && Honoured(p, p.evidence[i]);
      assert p.evidence[i] in p.evidence;
    }
  }

  lemma {:induction false} SameGrounds(s: Case, evidence: seq<Evidence>)
    requires SameButScores(s.proposal.evidence, evidence)
    ensures GroundsOf(Rescored(s, evidence)) == GroundsOf(s)
  {
    var p := s.proposal;
    SameHonours(s, evidence);
    SameLists(p.evidence, evidence);
    SameEarnings(p.evidence, evidence, s.policy, HasHonoured(p), HasHonoured(p) && Corrected(p.relations) != []);
  }

  lemma {:induction false} SameRelations(s: Case, evidence: seq<Evidence>, g: Grounds, authority: AuthorityLevel)
    ensures Relate(Rescored(s, evidence), g, authority, s.proposal.relations) == Relate(s, g, authority, s.proposal.relations)
  {
    RelatesLess(s, Rescored(s, evidence), g, g, authority, authority, s.proposal.relations);
    RelatesLess(Rescored(s, evidence), s, g, g, authority, authority, s.proposal.relations);
  }

  lemma {:induction false} EarlyStepsIgnoreScores(s: Case, evidence: seq<Evidence>)
    requires SameButScores(s.proposal.evidence, evidence)
    ensures VocabularyStep(Rescored(s, evidence)) == VocabularyStep(s) && SecretsStep(Rescored(s, evidence)) == SecretsStep(s)
    ensures ProvenanceStep(Rescored(s, evidence)) == ProvenanceStep(s) && SourcesStep(Rescored(s, evidence)) == SourcesStep(s)
  {
    SameLists(s.proposal.evidence, evidence);
  }

  lemma {:induction false} LateStepsIgnoreScores(s: Case, evidence: seq<Evidence>)
    requires SameButScores(s.proposal.evidence, evidence)
    ensures AuthorityStep(Rescored(s, evidence)) == AuthorityStep(s) && RelationsStep(Rescored(s, evidence)) == RelationsStep(s)
    ensures GroundStep(Rescored(s, evidence)) == GroundStep(s)
  {
    SameHonours(s, evidence);
    SameGrounds(s, evidence);
    SameLists(s.proposal.evidence, evidence);
    if GroundsOf(s).authority.Some? {
      SameRelations(s, evidence, GroundsOf(s), GroundsOf(s).authority.value);
    }
  }

  lemma {:induction false} BuiltAlike(s: Case, evidence: seq<Evidence>)
    requires SameButScores(s.proposal.evidence, evidence)
    ensures BuildAdmitted(Rescored(s, evidence)) == WithEvidence(BuildAdmitted(s), evidence)
  {
    SameGrounds(s, evidence);
    if GroundsOf(s).authority.Some? {
      SameRelations(s, evidence, GroundsOf(s), GroundsOf(s).authority.value);
    }
  }

  function WithEvidence(v: Verdict, evidence: seq<Evidence>): Verdict {
    if v.Admit? then Admit(v.admitted.(evidence := evidence)) else v
  }

  lemma {:induction false} OnlyTheFloorMoves(s: Case, evidence: seq<Evidence>)
    requires SameButScores(s.proposal.evidence, evidence)
    ensures forall i :: 0 <= i < 10 && i != 5 ==> Judgements(Rescored(s, evidence))[i] == Judgements(s)[i]
  {
    EarlyStepsIgnoreScores(s, evidence);
    SameHonours(s, evidence);
    LateStepsIgnoreScores(s, evidence);
  }

  lemma {:induction false} OneFault(js: seq<Judgement>, ks: seq<Judgement>, k: nat)
    requires k < |js| == |ks| && js[k].Pass? && ks[k].Fault?
    requires forall i :: 0 <= i < |js| && i != k ==> js[i] == ks[i]
    ensures FaultIn(ks) == FaultIn(js) || FaultIn(ks) == Some(ks[k].reason)
    decreases |js|
  {
    if k > 0 && !js[0].Fault? {
      OneFault(js[1..], ks[1..], k - 1);
    } else {
      assert k > 0 ==> js[0] == ks[0];
    }
  }

  /** Two cascades that differ by the floor alone. */
  lemma {:induction false} FloorAloneDecides(js: seq<Judgement>, ks: seq<Judgement>, built: Verdict, evidence: seq<Evidence>)
    requires |js| == 10 == |ks| && forall i :: 0 <= i < 10 && i != 5 ==> js[i] == ks[i]
    requires js[5] in {Pass, Fault(BelowScoreFloor)} && ks[5] in {Pass, Fault(BelowScoreFloor)}
    ensures js[5] == ks[5] ==> Cascade(ks, WithEvidence(built, evidence)) == WithEvidence(Cascade(js, built), evidence)
    ensures Cascade(ks, WithEvidence(built, evidence)) != WithEvidence(Cascade(js, built), evidence) ==>
      Cascade(js, built) == Refuse(BelowScoreFloor) || Cascade(ks, WithEvidence(built, evidence)) == Refuse(BelowScoreFloor)
  {
    if js[5] == ks[5] {
      assert js == ks;
    } else if js[5].Pass? {
      OneFault(js[..9], ks[..9], 5);
    } else {
      OneFault(ks[..9], js[..9], 5);
    }
  }

  lemma {:induction false} FloorSaysTwoThings(s: Case)
    ensures Judgements(s)[5] == if BelowFloor(s) then Fault(BelowScoreFloor) else Pass
  {
  }

  /** A score decides nothing but the floor: with other scores the verdict is the same,
      reason, authority, relations and all, unless one of the two refuses for the floor
      and the scores have crossed it. */
  lemma {:induction false} ScoresDecideNothing(s: Case, evidence: seq<Evidence>)
    requires SameButScores(s.proposal.evidence, evidence)
    ensures BelowFloor(s) == BelowFloor(Rescored(s, evidence)) ==>
      Judge(Rescored(s, evidence)) == WithEvidence(Judge(s), evidence)
    ensures Judge(Rescored(s, evidence)) != WithEvidence(Judge(s), evidence) ==>
      (Judge(s) == Refuse(BelowScoreFloor) || Judge(Rescored(s, evidence)) == Refuse(BelowScoreFloor))
  {
    var t := Rescored(s, evidence);
    FloorSaysTwoThings(s);
    FloorSaysTwoThings(t);
    OnlyTheFloorMoves(s, evidence);
    BuiltAlike(s, evidence);
    WalkIsTheCascade(s);
    WalkIsTheCascade(t);
    FloorAloneDecides(Judgements(s), Judgements(t), BuildAdmitted(s), evidence);
  }

  // ------------------------------------------------------------------ weak evidence

  ghost predicate OnlyInference(evidence: seq<Evidence>) {
    forall e :: e in evidence ==> e.ModelScore? || e.Corroboration?
  }

  lemma {:induction false} NoSeeds(evidence: seq<Evidence>)
    requires forall e :: e in evidence ==> !e.OperatorSeed?
    ensures SeedsOf(evidence) == []
    decreases |evidence|
  {
    if evidence != [] {
      assert evidence[0] in evidence && forall e :: e in evidence[1..] ==> e in evidence;
      NoSeeds(evidence[1..]);
    }
  }

  lemma {:induction false} InferenceIsWeak(s: Case)
    requires OnlyInference(s.proposal.evidence)
    ensures !HasHonoured(s.proposal) && !Reviewed(s.proposal) && SeedsOf(s.proposal.evidence) == []
    ensures GroundsOf(s).authority.Some? ==> GroundsOf(s).authority.value == Inferred
  {
    var p := s.proposal;
    NoSeeds(p.evidence);
    HonouredIsIn(p);
    EarnedIsHighest(p.evidence, s.policy, false, false);
  }

  lemma {:induction false} InferenceHasNoGround(s: Case)
    requires OnlyInference(s.proposal.evidence)
    requires forall i :: 0 <= i < |s.policy.qualified| ==> s.policy.qualified[i].minAuthority != Inferred
    ensures !GroundStep(s).Pass?
  {
    InferenceIsWeak(s);
  }

  lemma {:induction false} InferenceNeverPasses(s: Case)
    requires OnlyInference(s.proposal.evidence)
    requires forall i :: 0 <= i < |s.policy.qualified| ==> s.policy.qualified[i].minAuthority != Inferred
    ensures !Judge(s).Admit?
  {
    InferenceHasNoGround(s);
    if Judge(s).Admit? {
      AdmitGives(s);
    }
  }

  /** No legal policy admits on models' scores and other claims' agreement alone. */
  lemma {:induction false} InferenceNeverAdmits(s: Case)
    requires Legal(s.policy) && OnlyInference(s.proposal.evidence)
    ensures !Judge(s).Admit?
  {
    InferenceNeverPasses(s);
  }

  /** A claim of that predicate with one certain score behind it and nothing else. */
  function Bare(p: Policy, c: Qualification): Case {
    Case(
      ClaimProposal(1, BareClaim(c), Actor(Agent, "agent"), [ModelScore("model", SCALE, "value")], []),
      BareRegistry(c), p, Context(map[], map[]), (text: string) => None, (text: string) => true)
  }

  function BareClaim(c: Qualification): Claim {
    Claim(0, Scope("owner", "personal"), PredicateRegistry.Subject(c.ns, "thing", "key"), PredicateRef(c.ns, c.name, 1),
          Integer(1), None, Asserted, None, Provenance([], []))
  }

  function BareRegistry(c: Qualification): Snapshot {
    var def := PredicateDef(c.name, ["thing"], ValueType(IntegerKind, [], []), One, [Asserted], false);
    map[Key(c.ns, 1) := PredicateSet(c.ns, 1, ["thing"], [def])]
  }

  lemma {:induction false} BareIsValid(c: Qualification, nfc: string -> bool)
    ensures Validate(BareClaim(c), BareRegistry(c), nfc) == None
  {
    var defs := BareRegistry(c)[Key(c.ns, 1)].predicates;
    assert FindPredicate(defs, c.name) == Some(defs[0]);
    assert Define(BareRegistry(c), BareClaim(c).predicate_) == Some(defs[0]);
  }

  lemma {:induction false} BareEarns(p: Policy, c: Qualification)
    ensures OnlyInference(Bare(p, c).proposal.evidence) && GroundsOf(Bare(p, c)).authority == Some(Inferred)
  {
    var s := Bare(p, c);
    var e := s.proposal.evidence[0];
    InferenceIsWeak(s);
    EarnedIsHighest([e], p, false, false);
    assert e in [e] && ItemLevel(e, p, false, false) == Some(Inferred);
  }

  lemma {:induction false} BareIsClean(p: Policy, c: Qualification)
    ensures
      var s := Bare(p, c);
      CleanOfSecrets(s) && CitesOnlyAvailable(s) && !BelowFloor(s) && StatementsAreUsers(s) && RelatesProperly(s, GroundsOf(s))
  {
    var s := Bare(p, c);
    assert s.proposal.evidence[1..] == [] && SpanSources([]) == [];
    assert SpanSources(s.proposal.evidence) == [];
    assert Cited(s.proposal) == [];
  }

  lemma {:induction false} BareIsAdmitted(p: Policy, i: nat)
    requires i < |p.qualified| && p.qualified[i].minAuthority == Inferred
    ensures OnlyInference(Bare(p, p.qualified[i]).proposal.evidence) && Judge(Bare(p, p.qualified[i])).Admit?
  {
    var c := p.qualified[i];
    BareIsGrounded(p, i);
    AdmitsIff(Bare(p, c));
  }

  lemma {:induction false} BareIsGrounded(p: Policy, i: nat)
    requires i < |p.qualified| && p.qualified[i].minAuthority == Inferred
    ensures OnlyInference(Bare(p, p.qualified[i]).proposal.evidence) && Admissible(Bare(p, p.qualified[i]))
  {
    var c := p.qualified[i];
    var s := Bare(p, c);
    BareIsValid(c, s.nfc);
    BareEarns(p, c);
    BareIsClean(p, c);
    InferenceIsWeak(s);
    assert Qualifies(p, s.proposal.claim, Inferred);
    assert s.proposal.relations == [];
    assert OutranksOnlyReviewed(s, Inferred);
  }

  /** The check made when a policy is adopted is exactly what this needs: a policy whose
      qualifications all ask for more than inference never admits on inference alone, and
      one with a laxer qualification does. */
  lemma {:induction false} QualificationCheckIsExact(p: Policy)
    ensures
      (forall i :: 0 <= i < |p.qualified| ==> p.qualified[i].minAuthority != Inferred) <==>
      (forall s: Case :: s.policy == p && OnlyInference(s.proposal.evidence) ==> !Judge(s).Admit?)
  {
    if forall i :: 0 <= i < |p.qualified| ==> p.qualified[i].minAuthority != Inferred {
      forall s: Case | s.policy == p && OnlyInference(s.proposal.evidence) ensures !Judge(s).Admit? {
        InferenceNeverPasses(s);
      }
    } else {
      var i: nat :| i < |p.qualified| && p.qualified[i].minAuthority == Inferred;
      BareIsAdmitted(p, i);
      assert Bare(p, p.qualified[i]).policy == p;
    }
  }

  lemma {:induction false} UnhonouredEarnLittle(evidence: seq<Evidence>, p: Policy, correcting: bool)
    ensures var level := Earned(evidence, p, false, correcting); level.Some? ==> Rank(level.value) <= Rank(Verified)
    decreases |evidence|
  {
    if evidence != [] {
      UnhonouredEarnLittle(evidence[1..], p, correcting);
      assert PolicyCeiling(p, EvidenceKindOf(evidence[0])).Some? ==> CeilingOf(EvidenceKindOf(evidence[0])).Some?;
    }
  }

  /** Nobody but a person speaks for the owner: what anyone else proposes never reaches a
      user's level, is never sourced from a user, and corrects nothing. */
  lemma {:induction false} OnlyPeopleSpeakForUsers(s: Case)
    requires s.proposal.proposer.kind != Human && Judge(s).Admit?
    ensures var a := Judge(s).admitted; Rank(a.authority) <= Rank(Verified) && a.sourcing != User && a.corrects == []
  {
    AdmittedIsRelated(s);
    UnhonouredEarnLittle(s.proposal.evidence, s.policy, false);
  }

  function Honest(p: ClaimProposal, evidence: seq<Evidence>): seq<Evidence>
    decreases |evidence|
  {
    if evidence == [] then []
    else (if evidence[0].UserStatement? && !Honoured(p, evidence[0]) then [] else [evidence[0]]) + Honest(p, evidence[1..])
  }

  lemma {:induction false} HonestKeeps(p: ClaimProposal, evidence: seq<Evidence>)
    ensures forall e :: e in Honest(p, evidence) <==> e in evidence && (e.UserStatement? ==> Honoured(p, e))
    decreases |evidence|
  {
    if evidence != [] {
      HonestKeeps(p, evidence[1..]);
      assert forall e :: e in evidence <==> e == evidence[0] || e in evidence[1..];
    }
  }

  lemma {:induction false} MemberEarns(a: seq<Evidence>, e: Evidence, p: Policy, honoured: bool, correcting: bool)
    requires e in a && ItemLevel(e, p, honoured, correcting).Some?
    ensures var most := Earned(a, p, honoured, correcting);
            most.Some? && Rank(ItemLevel(e, p, honoured, correcting).value) <= Rank(most.value)
    decreases |a|
  {
    if e != a[0] {
      MemberEarns(a[1..], e, p, honoured, correcting);
    }
  }

  lemma {:induction false} EarnsAsMuch(a: seq<Evidence>, b: seq<Evidence>, p: Policy, honoured: bool, correcting: bool)
    requires forall e :: e in a && ItemLevel(e, p, honoured, correcting).Some? ==> EarnedBySome(b, p, honoured, correcting, ItemLevel(e, p, honoured, correcting))
    ensures var x, y := Earned(a, p, honoured, correcting), Earned(b, p, honoured, correcting);
            x.Some? ==> y.Some? && Rank(x.value) <= Rank(y.value)
    decreases |a|
  {
    if a != [] {
      EarnsAsMuch(a[1..], b, p, honoured, correcting);
      var level := ItemLevel(a[0], p, honoured, correcting);
      if level.Some? {
        SomeEarns(b, level.value, p, honoured, correcting);
      }
    }
  }

  lemma {:induction false} SomeEarns(b: seq<Evidence>, level: AuthorityLevel, p: Policy, honoured: bool, correcting: bool)
    requires EarnedBySome(b, p, honoured, correcting, Some(level))
    ensures var most := Earned(b, p, honoured, correcting); most.Some? && Rank(level) <= Rank(most.value)
  {
    var f :| f in b && ItemLevel(f, p, honoured, correcting) == Some(level);
    MemberEarns(b, f, p, honoured, correcting);
  }

  ghost predicate EarnedBySome(b: seq<Evidence>, p: Policy, honoured: bool, correcting: bool, level: Option<AuthorityLevel>) {
    exists f :: f in b && ItemLevel(f, p, honoured, correcting) == level
  }

  /** A statement that is not honoured is evidence of nothing: the authority earned is
      that of the rest. */
  lemma {:induction false} DishonestStatementsEarnNothing(p: ClaimProposal, policy: Policy, correcting: bool)
    ensures Earned(p.evidence, policy, HasHonoured(p), correcting) == Earned(Honest(p, p.evidence), policy, HasHonoured(p), correcting)
  {
    var all, some, honoured := p.evidence, Honest(p, p.evidence), HasHonoured(p);
    HonestKeeps(p, all);
    HonouredIsIn(p);
    forall e | e in all && ItemLevel(e, policy, honoured, correcting).Some?
      ensures EarnedBySome(some, policy, honoured, correcting, ItemLevel(e, policy, honoured, correcting))
    {
      if e !in some {
        var f :| f in all && Honoured(p, f);
        assert f in some && ItemLevel(f, policy, honoured, correcting) == ItemLevel(e, policy, honoured, correcting);
      }
    }
    EarnsAsMuch(all, some, policy, honoured, correcting);
    forall e | e in some && ItemLevel(e, policy, honoured, correcting).Some?
      ensures EarnedBySome(all, policy, honoured, correcting, ItemLevel(e, policy, honoured, correcting))
    {
    }
    EarnsAsMuch(some, all, policy, honoured, correcting);
    SameRank(Earned(all, policy, honoured, correcting), Earned(some, policy, honoured, correcting));
  }

  lemma {:induction false} SameRank(a: Option<AuthorityLevel>, b: Option<AuthorityLevel>)
    requires NoMore(a, b) && NoMore(b, a)
    ensures a == b
  {
  }
}
