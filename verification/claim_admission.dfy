/** Judging a proposed claim: the steps, the policy, and what an admission carries. */
module ClaimAdmission {

  import opened Wrappers
  import opened PredicateRegistry
  import opened ClosedWalk

  /** From the least an admitted claim may be relied on to the most. */
  datatype AuthorityLevel = Inferred | Extracted | Verified | UserAsserted | UserCorrected

  function Rank(l: AuthorityLevel): nat {
    match l
    case Inferred => 0
    case Extracted => 1
    case Verified => 2
    case UserAsserted => 3
    case UserCorrected => 4
  }

  predicate IsUser(l: AuthorityLevel) { l == UserAsserted || l == UserCorrected }

  function Lesser(a: AuthorityLevel, b: AuthorityLevel): AuthorityLevel { if Rank(a) <= Rank(b) then a else b }

  function Greater(a: AuthorityLevel, b: AuthorityLevel): AuthorityLevel { if Rank(a) <= Rank(b) then b else a }

  datatype Sourcing = User | Seed | Supplier

  /** Basis points. */
  const SCALE := 10_000

  type Score = n: nat | n <= SCALE

  datatype EvidenceKind =
    SourceSpanKind | SpanVerifiedKind | ModelScoreKind | RuleMatchKind |
    UserStatementKind | CorroborationKind | ReviewApprovalKind | OperatorSeedKind

  datatype SeedRef = SeedRef(name: string, version: nat)

  datatype Evidence =
    | SourceSpan(source: Id)
    | SpanVerified(source: Id, method_: string)
    | ModelScore(model: string, score: Score, topic: string)
    | RuleMatch(rule: string)
    | UserStatement(author: string, authority: AuthorityLevel)
    | Corroboration(claims: seq<Id>)
    | ReviewApproval(approver: string, decision: string)
    | OperatorSeed(operator: string, seed: SeedRef)

  function EvidenceKindOf(e: Evidence): EvidenceKind {
    match e
    case SourceSpan(_) => SourceSpanKind
    case SpanVerified(_, _) => SpanVerifiedKind
    case ModelScore(_, _, _) => ModelScoreKind
    case RuleMatch(_) => RuleMatchKind
    case UserStatement(_, _) => UserStatementKind
    case Corroboration(_) => CorroborationKind
    case ReviewApproval(_, _) => ReviewApprovalKind
    case OperatorSeed(_, _) => OperatorSeedKind
  }

  datatype RelationKind = Supersedes | Contradicts | DerivedFrom

  datatype ProposedRelation = ProposedRelation(kind: RelationKind, to: Id)

  datatype ActorKind = Human | Agent | System | Import

  datatype Actor = Actor(kind: ActorKind, id: string)

  datatype ClaimProposal = ClaimProposal(
    id: Id, claim: Claim, proposer: Actor, evidence: seq<Evidence>, relations: seq<ProposedRelation>)

  // --------------------------------------------------------------------- reasons

  datatype ClaimField = ValueField | ConditionField | SlotField | SubjectField

  datatype Rule =
    | SeedWithUserStatement | UserStatementBelowUserLevel | UnknownTarget | CrossScopeRelation
    | UserSupersedesSupplier | SelfRelation | Walking(code: WalkCode)

  datatype ClaimReason =
    | UnregisteredPredicate
    | InvalidValue(error: ClaimError)
    | SecretDetected(field: ClaimField, detector: string, offset: nat)
    | SourceUnavailable(source: Id)
    | NoProvenance
    | AuthorityInsufficient
    | BelowScoreFloor
    | PolicyDenied(rule: Rule)

  // --------------------------------------------------------------------- policies

  /** The highest level each kind of evidence can ever earn. */
  function CeilingOf(kind: EvidenceKind): Option<AuthorityLevel> {
    match kind
    case ModelScoreKind => Some(Inferred)
    case SourceSpanKind => Some(Extracted)
    case RuleMatchKind => Some(Extracted)
    case OperatorSeedKind => Some(Extracted)
    case SpanVerifiedKind => Some(Verified)
    case UserStatementKind => Some(UserCorrected)
    case CorroborationKind => None
    case ReviewApprovalKind => None
  }

  datatype Ceiling = Ceiling(evidence: EvidenceKind, level: AuthorityLevel)

  datatype Qualification = Qualification(ns: string, name: string, minAuthority: AuthorityLevel)

  datatype Policy = Policy(
    id: string, version: nat, scoreFloor: Option<Score>,
    ceilings: seq<Ceiling>, qualified: seq<Qualification>, seeds: seq<SeedRef>)

  datatype PolicyError =
    CeilingRaised(kind: EvidenceKind) | DuplicateCeiling(kind: EvidenceKind) | QualifiedOnInference | Unnamed

  /** White space, as the names' trimming sees it. */
  predicate White(c: char) {
    c == ' ' || '\t' <= c <= '\r' || c in "\U{0085}\U{00A0}\U{1680}\U{2028}\U{2029}\U{202F}\U{205F}\U{3000}" ||
    '\U{2000}' <= c <= '\U{200A}'
  }

  predicate Blank(text: string) {
    forall c :: c in text ==> White(c)
  }

  predicate Capped(c: Ceiling) {
    CeilingOf(c.evidence).Some? && Rank(c.level) <= Rank(CeilingOf(c.evidence).value)
  }

  ghost predicate Legal(p: Policy) {
    && !Blank(p.id) && p.version != 0
    && (forall i, j :: 0 <= i < j < |p.ceilings| ==> p.ceilings[i].evidence != p.ceilings[j].evidence)
    && (forall i :: 0 <= i < |p.ceilings| ==> Capped(p.ceilings[i]))
    && (forall i :: 0 <= i < |p.qualified| ==> Rank(p.qualified[i].minAuthority) >= Rank(Extracted))
  }

  /** A policy is adopted exactly when it is legal, and the first fault in reading order
      is the one reported. */
  method NewPolicy(p: Policy) returns (r: Result<Policy, PolicyError>)
    ensures r.Ok? <==> Legal(p)
    ensures r.Ok? ==> r.value == p
    ensures r == Err(Unnamed) <==> Blank(p.id) || p.version == 0
    ensures r.Err? && r.error.DuplicateCeiling? ==>
      exists i, j :: 0 <= i < j < |p.ceilings| && p.ceilings[i].evidence == p.ceilings[j].evidence == r.error.kind
    ensures r.Err? && r.error.CeilingRaised? ==>
      exists i :: 0 <= i < |p.ceilings| && p.ceilings[i].evidence == r.error.kind && !Capped(p.ceilings[i])
    ensures r == Err(QualifiedOnInference) ==> forall i :: 0 <= i < |p.ceilings| ==> Capped(p.ceilings[i])
  {
    if Blank(p.id) || p.version == 0 {
      return Err(Unnamed);
    }
    var seen := [];
    for i := 0 to |p.ceilings|
      invariant |seen| == i && forall j :: 0 <= j < i ==> seen[j] == p.ceilings[j].evidence
      invariant forall j, k :: 0 <= j < k < i ==> p.ceilings[j].evidence != p.ceilings[k].evidence
      invariant forall j :: 0 <= j < i ==> Capped(p.ceilings[j])
    {
      var ceiling := p.ceilings[i];
      if ceiling.evidence in seen {
        return Err(DuplicateCeiling(ceiling.evidence));
      }
      seen := seen + [ceiling.evidence];
      if !Capped(ceiling) {
        return Err(CeilingRaised(ceiling.evidence));
      }
    }
    if exists i :: 0 <= i < |p.qualified| && Rank(p.qualified[i].minAuthority) < Rank(Extracted) {
      return Err(QualifiedOnInference);
    }
    r := Ok(p);
  }

  /** The first ceiling listed for that kind. */
  function Listed(ceilings: seq<Ceiling>, kind: EvidenceKind): Option<AuthorityLevel>
    decreases |ceilings|
  {
    if ceilings == [] then None
    else if ceilings[0].evidence == kind then Some(ceilings[0].level)
    else Listed(ceilings[1..], kind)
  }

  /** The level a kind of evidence earns under a policy. */
  function PolicyCeiling(p: Policy, kind: EvidenceKind): (r: Option<AuthorityLevel>)
    ensures r.Some? <==> CeilingOf(kind).Some?
    ensures r.Some? ==> Rank(r.value) <= Rank(CeilingOf(kind).value)
  {
    match CeilingOf(kind)
    case None => None
    case Some(most) =>
      match Listed(p.ceilings, kind)
      case None => Some(most)
      case Some(level) => Some(Lesser(level, most))
  }

  predicate Qualifies(p: Policy, c: Claim, authority: AuthorityLevel) {
    exists i :: 0 <= i < |p.qualified| && p.qualified[i].ns == c.predicate_.ns && p.qualified[i].name == c.predicate_.name &&
                Rank(authority) >= Rank(p.qualified[i].minAuthority)
  }

  // ---------------------------------------------------------------- what is judged

  datatype SourceState = Available | Quarantined | Erased

  datatype TargetFacts = TargetFacts(scope: Scope, authority: AuthorityLevel, sourcing: Sourcing)

  datatype Context = Context(sources: map<Id, SourceState>, targets: map<Id, TargetFacts>)

  datatype Finding = Finding(detector: string, offset: nat)

  /** `scan` is the credential detectors, `nfc` recognises normalized text: both pure. */
  datatype Case = Case(
    proposal: ClaimProposal, registry: Snapshot, policy: Policy, context: Context,
    scan: string -> Option<Finding>, nfc: string -> bool)

  /** A statement the gate honours: a human proposer's about themselves. */
  predicate Honoured(p: ClaimProposal, e: Evidence) {
    e.UserStatement? && p.proposer.kind == Human && p.proposer.id == e.author
  }

  predicate HasHonoured(p: ClaimProposal) {
    exists i :: 0 <= i < |p.evidence| && Honoured(p, p.evidence[i])
  }

  /** The targets a proposal supersedes or contradicts, in order. */
  function Corrected(relations: seq<ProposedRelation>): seq<Id>
    decreases |relations|
  {
    if relations == [] then []
    else (if relations[0].kind == Supersedes || relations[0].kind == Contradicts then [relations[0].to] else []) + Corrected(relations[1..])
  }

  function SeedsOf(evidence: seq<Evidence>): seq<SeedRef>
    decreases |evidence|
  {
    if evidence == [] then []
    else (if evidence[0].OperatorSeed? then [evidence[0].seed] else []) + SeedsOf(evidence[1..])
  }

  function SpanSources(evidence: seq<Evidence>): seq<Id>
    decreases |evidence|
  {
    if evidence == [] then []
    else (if evidence[0].SourceSpan? || evidence[0].SpanVerified? then [evidence[0].source] else []) + SpanSources(evidence[1..])
  }

  /** The level one item earns: its ceiling, except that a statement earns nothing unless
      one is honoured, and what it earns depends on whether it corrects. */
  function ItemLevel(e: Evidence, p: Policy, honoured: bool, correcting: bool): Option<AuthorityLevel> {
    match PolicyCeiling(p, EvidenceKindOf(e))
    case None => None
    case Some(ceiling) =>
      if e.UserStatement? then
        if !honoured then None else Some(Lesser(if correcting then UserCorrected else UserAsserted, ceiling))
      else Some(ceiling)
  }

  /** The highest level any item earns. */
  function Earned(evidence: seq<Evidence>, p: Policy, honoured: bool, correcting: bool): Option<AuthorityLevel>
    decreases |evidence|
  {
    if evidence == [] then None
    else
      var here, rest := ItemLevel(evidence[0], p, honoured, correcting), Earned(evidence[1..], p, honoured, correcting);
      if here == None then rest else if rest == None then here else Some(Greater(here.value, rest.value))
  }

  /** Some item earns it and none earns more; nothing is earned only when no item earns. */
  lemma {:induction false} EarnedIsHighest(evidence: seq<Evidence>, p: Policy, honoured: bool, correcting: bool)
    ensures
      var r := Earned(evidence, p, honoured, correcting);
      && (r == None <==> forall e :: e in evidence ==> ItemLevel(e, p, honoured, correcting) == None)
      && (r.Some? ==>
            && (exists e :: e in evidence && ItemLevel(e, p, honoured, correcting) == r)
            && (forall e :: e in evidence && ItemLevel(e, p, honoured, correcting).Some? ==>
                  Rank(ItemLevel(e, p, honoured, correcting).value) <= Rank(r.value)))
    decreases |evidence|
  {
    if evidence != [] {
      EarnedIsHighest(evidence[1..], p, honoured, correcting);
      assert forall e :: e in evidence <==> e == evidence[0] || e in evidence[1..];
    }
  }

  datatype Grounds = Grounds(authority: Option<AuthorityLevel>, correcting: bool, ownData: bool, sourcing: Sourcing)

  function GroundsOf(s: Case): Grounds {
    var p := s.proposal;
    var correcting := HasHonoured(p) && Corrected(p.relations) != [];
    var ownData := HasHonoured(p) && p.proposer.id == p.claim.scope.owner;
    Grounds(
      Earned(p.evidence, s.policy, HasHonoured(p), correcting), correcting, ownData,
      if ownData then User else if SeedsOf(p.evidence) != [] then Seed else Supplier)
  }

  // -------------------------------------------------------------------- relations

  datatype ClaimRelation = ClaimRelation(from: Id, kind: RelationKind, to: Id, provenance: Provenance)

  datatype Related = Related(relations: seq<ClaimRelation>, conflicts: seq<Id>, outranked: bool)

  /** What refuses one relation, in the order it is looked for. */
  function RelationFault(s: Case, g: Grounds, r: ProposedRelation): Option<Rule> {
    if r.to !in s.context.targets then Some(UnknownTarget)
    else
      var target := s.context.targets[r.to];
      if target.scope != s.proposal.claim.scope then Some(CrossScopeRelation)
      else if r.kind == Supersedes && g.sourcing == User && target.sourcing == Supplier then Some(UserSupersedesSupplier)
      else if r.to == s.proposal.claim.id then Some(SelfRelation)
      else None
  }

  predicate Outranks(s: Case, r: ProposedRelation, authority: AuthorityLevel) {
    r.kind == Supersedes && r.to in s.context.targets && Rank(s.context.targets[r.to].authority) > Rank(authority)
  }

  predicate Conflicts(s: Case, g: Grounds, r: ProposedRelation) {
    r.kind == Contradicts && g.correcting && r.to in s.context.targets && s.context.targets[r.to].sourcing == Supplier
  }

  function Built(c: Claim, r: ProposedRelation): ClaimRelation {
    ClaimRelation(c.id, r.kind, r.to, c.provenance)
  }

  /** The relations of a proposal's first part; the first one that breaks a rule refuses. */
  function Relate(s: Case, g: Grounds, authority: AuthorityLevel, relations: seq<ProposedRelation>): Result<Related, Rule>
    decreases |relations|
  {
    if relations == [] then Ok(Related([], [], false))
    else
      var last := relations[|relations| - 1];
      match Relate(s, g, authority, relations[..|relations| - 1])
      case Err(rule) => Err(rule)
      case Ok(done) =>
        match RelationFault(s, g, last)
        case Some(rule) => Err(rule)
        case None =>
          Ok(Related(
               done.relations + [Built(s.proposal.claim, last)],
               if Conflicts(s, g, last) then done.conflicts + [last.to] else done.conflicts,
               done.outranked || Outranks(s, last, authority)))
  }

  lemma {:induction false} RelateStops(s: Case, g: Grounds, authority: AuthorityLevel, relations: seq<ProposedRelation>, n: nat)
    requires n <= |relations| && Relate(s, g, authority, relations[..n]).Err?
    ensures Relate(s, g, authority, relations) == Err(Relate(s, g, authority, relations[..n]).error)
    decreases |relations| - n
  {
    if n < |relations| {
      assert relations[..n + 1][..n] == relations[..n];
      RelateStops(s, g, authority, relations, n + 1);
    } else {
      assert relations[..n] == relations;
    }
  }

  /** The relations, read one by one. */
  method RelateAll(s: Case, g: Grounds, authority: AuthorityLevel) returns (r: Result<Related, Rule>)
    ensures r == Relate(s, g, authority, s.proposal.relations)
  {
    var proposed, claim := s.proposal.relations, s.proposal.claim;
    var relations, conflicts, outranked := [], [], false;
    for i := 0 to |proposed|
      invariant Relate(s, g, authority, proposed[..i]) == Ok(Related(relations, conflicts, outranked))
    {
      var relation := proposed[i];
      ghost var part := proposed[..i + 1];
      assert part[..i] == proposed[..i] && part[i] == relation;
      if relation.to !in s.context.targets {
        RelateStops(s, g, authority, proposed, i + 1);
        return Err(UnknownTarget);
      }
      var target := s.context.targets[relation.to];
      if target.scope != claim.scope {
        RelateStops(s, g, authority, proposed, i + 1);
        return Err(CrossScopeRelation);
      }
      if relation.kind == Supersedes {
        if g.sourcing == User && target.sourcing == Supplier {
          RelateStops(s, g, authority, proposed, i + 1);
          return Err(UserSupersedesSupplier);
        }
        outranked := outranked || Rank(target.authority) > Rank(authority);
      }
      if relation.kind == Contradicts && g.correcting && target.sourcing == Supplier {
        conflicts := conflicts + [relation.to];
      }
      if relation.to == claim.id {
        RelateStops(s, g, authority, proposed, i + 1);
        return Err(SelfRelation);
      }
      relations := relations + [Built(claim, relation)];
    }
    assert proposed[..|proposed|] == proposed;
    r := Ok(Related(relations, conflicts, outranked));
  }

  // ------------------------------------------------------------------- the ten steps

  type Judgement = Judged<ClaimReason>

  function FaultIf(refused: bool, reason: ClaimReason): Judgement { if refused then Fault(reason) else Pass }

  function VocabularyStep(s: Case): Judgement {
    match Validate(s.proposal.claim, s.registry, s.nfc)
    case None => Pass
    case Some(e) => Fault(if e in {UnknownPredicate, WrongVersion, Withdrawn} then UnregisteredPredicate else InvalidValue(e))
  }

  function ScanField(s: Case, field: ClaimField, text: Option<string>): Option<ClaimReason> {
    match text
    case None => None
    case Some(t) =>
      match s.scan(t)
      case None => None
      case Some(f) => Some(SecretDetected(field, f.detector, f.offset))
  }

  /** The value, the condition, the slot, then the subject's key. */
  function SecretsStep(s: Case): Judgement {
    var c := s.proposal.claim;
    var value := ScanField(s, ValueField, if c.value.Text? then Some(c.value.text) else None);
    var condition := ScanField(s, ConditionField, c.condition);
    var slot := ScanField(s, SlotField, c.slot);
    var key := ScanField(s, SubjectField, Some(c.subject.key));
    if value.Some? then Fault(value.value)
    else if condition.Some? then Fault(condition.value)
    else if slot.Some? then Fault(slot.value)
    else if key.Some? then Fault(key.value)
    else Pass
  }

  function ProvenanceStep(s: Case): Judgement { FaultIf(s.proposal.evidence == [], NoProvenance) }

  /** Everything a proposal cites: what its claim derives from, its spans, its evidence. */
  function Cited(p: ClaimProposal): seq<Id> {
    p.claim.provenance.derivedFrom + p.claim.provenance.spans + SpanSources(p.evidence)
  }

  function FirstUnavailable(cited: seq<Id>, sources: map<Id, SourceState>): Option<Id>
    decreases |cited|
  {
    if cited == [] then None
    else if cited[0] in sources && sources[cited[0]] == Available then FirstUnavailable(cited[1..], sources)
    else Some(cited[0])
  }

  function SourcesStep(s: Case): Judgement {
    match FirstUnavailable(Cited(s.proposal), s.context.sources)
    case None => Pass
    case Some(source) => Fault(SourceUnavailable(source))
  }

  /** A seed dressed as the owner's word, honoured or not. */
  function SeedStep(s: Case): Judgement {
    FaultIf(SeedsOf(s.proposal.evidence) != [] && exists e :: e in s.proposal.evidence && e.UserStatement?,
            PolicyDenied(SeedWithUserStatement))
  }

  predicate BelowFloor(s: Case) {
    s.policy.scoreFloor.Some? &&
    exists e :: e in s.proposal.evidence && e.ModelScore? && e.score < s.policy.scoreFloor.value
  }

  function ScoreFloorStep(s: Case): Judgement { FaultIf(BelowFloor(s), BelowScoreFloor) }

  function UserLevelStep(s: Case): Judgement {
    FaultIf(exists e :: e in s.proposal.evidence && Honoured(s.proposal, e) && !IsUser(e.authority),
            PolicyDenied(UserStatementBelowUserLevel))
  }

  function AuthorityStep(s: Case): Judgement { FaultIf(GroundsOf(s).authority == None, AuthorityInsufficient) }

  function RelationsStep(s: Case): Judgement {
    var g := GroundsOf(s);
    match g.authority
    case None => Fault(AuthorityInsufficient)
    case Some(authority) =>
      match Relate(s, g, authority, s.proposal.relations)
      case Ok(_) => Pass
      case Err(rule) => Fault(PolicyDenied(rule))
  }

  predicate Reviewed(p: ClaimProposal) { exists e :: e in p.evidence && e.ReviewApproval? }

  predicate Seeded(s: Case) {
    SeedsOf(s.proposal.evidence) != [] && forall seed :: seed in SeedsOf(s.proposal.evidence) ==> seed in s.policy.seeds
  }

  /** A review, an own-data statement, accepted seeds, or a qualified predicate. */
  predicate Grounded(s: Case, g: Grounds, authority: AuthorityLevel) {
    Reviewed(s.proposal) || g.ownData || Seeded(s) || Qualifies(s.policy, s.proposal.claim, authority)
  }

  function GroundStep(s: Case): Judgement {
    var g := GroundsOf(s);
    match g.authority
    case None => Fault(AuthorityInsufficient)
    case Some(authority) =>
      match Relate(s, g, authority, s.proposal.relations)
      case Err(rule) => Fault(PolicyDenied(rule))
      case Ok(related) =>
        if related.outranked && !Reviewed(s.proposal) then Hold(AuthorityInsufficient)
        else if Grounded(s, g, authority) then Pass
        else Hold(AuthorityInsufficient)
  }

  datatype ClaimStep =
    Vocabulary | Secrets | Provenanced | Sourced | Seeding | ScoreFloor | UserLevel | Authority | Relations | Grounding

  function ClaimSteps(): seq<ClaimStep> {
    [Vocabulary, Secrets, Provenanced, Sourced, Seeding, ScoreFloor, UserLevel, Authority, Relations, Grounding]
  }

  function ClaimWalk(): seq<Step<ClaimStep, Case, ClaimReason>> {
    [Step(Vocabulary, VocabularyStep), Step(Secrets, SecretsStep), Step(Provenanced, ProvenanceStep),
     Step(Sourced, SourcesStep), Step(Seeding, SeedStep), Step(ScoreFloor, ScoreFloorStep),
     Step(UserLevel, UserLevelStep), Step(Authority, AuthorityStep), Step(Relations, RelationsStep),
     Step(Grounding, GroundStep)]
  }

  /** What each step says, in order. */
  function Judgements(s: Case): seq<Judgement> {
    [VocabularyStep(s), SecretsStep(s), ProvenanceStep(s), SourcesStep(s), SeedStep(s), ScoreFloorStep(s),
     UserLevelStep(s), AuthorityStep(s), RelationsStep(s), GroundStep(s)]
  }

  // ------------------------------------------------------------------------ verdicts

  datatype AdmittedClaim = AdmittedClaim(
    claim: Claim, proposal: Id, proposer: Actor, policyId: string, policyVersion: nat, authority: AuthorityLevel,
    sourcing: Sourcing, evidence: seq<Evidence>, relations: seq<ClaimRelation>, corrects: seq<Id>, conflicts: seq<Id>)

  datatype Verdict = Admit(admitted: AdmittedClaim) | OnHold(reason: ClaimReason) | Refuse(reason: ClaimReason)

  /** Building the claim; the refusals answer what the walk has already refused. */
  function BuildAdmitted(s: Case): Verdict {
    var g, p := GroundsOf(s), s.proposal;
    match g.authority
    case None => Refuse(AuthorityInsufficient)
    case Some(authority) =>
      match Relate(s, g, authority, p.relations)
      case Err(rule) => Refuse(PolicyDenied(rule))
      case Ok(related) =>
        Admit(AdmittedClaim(
                p.claim, p.id, p.proposer, s.policy.id, s.policy.version, authority, g.sourcing, p.evidence,
                related.relations, if g.correcting then Corrected(p.relations) else [], related.conflicts))
  }

  function WalkFault(code: WalkCode): ClaimReason { PolicyDenied(Walking(code)) }

  function Judge(s: Case): Verdict {
    match Walk(s, ClaimWalk(), ClaimSteps(), WalkFault)
    case Refused(reason) => Refuse(reason)
    case Held(reason) => OnHold(reason)
    case Passed => BuildAdmitted(s)
  }
}
