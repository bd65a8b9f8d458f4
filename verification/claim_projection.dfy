/** What a scope believes, as of a bound on knowledge and a bound on validity.

    The definitions say which claims win each slot; `ProjectionEngine` computes them
    as the store does, loop by loop. How a civil time maps to an interval of
    seconds depends on zone data, so it is a parameter: any function will do, as
    long as it is one. */
module ClaimProjection {

  import opened Wrappers
  import opened Ordered
  import opened ClaimHistories

  datatype Window = Window(definite: Option<(int, int)>, possible: (int, int))

  datatype ProjectionError = UnsupportedTimeZoneDatabase | InvalidTime

  type Zones = TimePoint -> Result<Window, ProjectionError>

  datatype TxBound = Sequence(seq_: nat) | RecordedAt(at: nat)

  datatype ValidBound = Instant(point: TimePoint) | Interval(start: Bound, end: Bound)

  datatype AsOf = AsOf(knowledge: TxBound, valid: ValidBound)

  datatype Policy = Policy(supported: bool, possibleCounts: bool)

  datatype Certainty = Definite | Possible

  datatype Candidate = Candidate(id: ClaimId, value: string, sourcing: Sourcing, certainty: Certainty, superseded: seq<ClaimId>)

  datatype SlotState = Value(candidates: seq<Candidate>) | Conflicted(candidates: seq<Candidate>) | Retracted | Absent

  datatype SlotView = SlotView(slot: SlotId, state: SlotState)

  datatype Proposal = Proposal(left: ClaimId, right: ClaimId)

  datatype View = View(slots: seq<SlotView>, proposals: set<Proposal>)

  // ------------------------------------------------------------- valid time

  /** A quarter of the 64-bit range: far enough to be for ever. */
  const BEGINNING := -0x2000_0000_0000_0000
  const END := 0x1fff_ffff_ffff_ffff

  function StartOf(b: Bound, zones: Zones): Result<(Option<int>, int), ProjectionError> {
    match b
    case Open => Ok((Some(BEGINNING), BEGINNING))
    case Inclusive(point) =>
      (match zones(point)
       case Err(e) => Err(e)
       case Ok(w) => Ok((if w.definite.Some? then Some(w.definite.value.0) else None, w.possible.0)))
    case Exclusive(point) =>
      (match zones(point)
       case Err(e) => Err(e)
       case Ok(w) => Ok((if w.definite.Some? then Some(w.definite.value.1) else None, w.possible.1)))
  }

  /** The possible end of an exclusive bound is the far end of the point, like an inclusive one's. */
  function EndOf(b: Bound, zones: Zones): Result<(Option<int>, int), ProjectionError> {
    match b
    case Open => Ok((Some(END), END))
    case Inclusive(point) =>
      (match zones(point)
       case Err(e) => Err(e)
       case Ok(w) => Ok((if w.definite.Some? then Some(w.definite.value.1) else None, w.possible.1)))
    case Exclusive(point) =>
      (match zones(point)
       case Err(e) => Err(e)
       case Ok(w) => Ok((if w.definite.Some? then Some(w.definite.value.0) else None, w.possible.1)))
  }

  function IntervalWindow(start: Bound, end: Bound, zones: Zones): Result<Window, ProjectionError> {
    match StartOf(start, zones)
    case Err(e) => Err(e)
    case Ok(s) =>
      match EndOf(end, zones)
      case Err(e) => Err(e)
      case Ok(t) => Ok(Window(if s.0.Some? && t.0.Some? then Some((s.0.value, t.0.value)) else None, (s.1, t.1)))
  }

  function QueryWindow(bound: ValidBound, zones: Zones): Result<Window, ProjectionError> {
    match bound
    case Instant(point) => zones(point)
    case Interval(start, end) => IntervalWindow(start, end, zones)
  }

  function ValidWindow(r: ClaimRecord, zones: Zones): Result<Window, ProjectionError> {
    match r.valid
    case Timeless => Ok(Window(Some((BEGINNING, END)), (BEGINNING, END)))
    case FromSourceTime =>
      if r.sourceTime.None? then Err(InvalidTime)
      else (match zones(r.sourceTime.value)
            case Err(e) => Err(e)
            case Ok(w) => Ok(Window(if w.definite.Some? then Some((w.definite.value.0, END)) else None, (w.possible.0, END))))
    case Explicit(start, end) => IntervalWindow(start, end, zones)
  }

  /** How surely a claim covers the bound asked about, if it does. */
  function Coverage(r: ClaimRecord, query: Window, zones: Zones): Result<Option<Certainty>, ProjectionError> {
    match ValidWindow(r, zones)
    case Err(e) => Err(e)
    case Ok(valid) =>
      if valid.definite.Some? && query.definite.Some?
         && valid.definite.value.0 <= query.definite.value.0 && query.definite.value.1 <= valid.definite.value.1
      then Ok(Some(Definite))
      else if valid.possible.0 <= query.possible.0 && query.possible.1 <= valid.possible.1 then Ok(Some(Possible))
      else Ok(None)
  }

  predicate WithinTx(tx: TxStamp, bound: TxBound) {
    match bound
    case Sequence(s) => tx.seq_ <= s
    case RecordedAt(at) => tx.recordedAt <= at
  }

  // ------------------------------------------------------------ source order

  datatype Order = Less | Equal | Greater

  function Compare(a: int, b: int): Order {
    if a < b then Less else if a == b then Equal else Greater
  }

  function ComparePair(a: (int, int), b: (int, int)): Order {
    if a.0 == b.0 then Compare(a.1, b.1) else Compare(a.0, b.0)
  }

  predicate BySequence(a: ClaimRecord, b: ClaimRecord) {
    a.sourceSeq.Some? && b.sourceSeq.Some? && a.sourceSeq.value != b.sourceSeq.value
  }

  predicate ByTime(a: ClaimRecord, b: ClaimRecord) {
    !BySequence(a, b) && a.sourceTime.Some? && b.sourceTime.Some?
  }

  /** Revision numbers decide when they can, then times, and otherwise nothing does. */
  function SourceOrder(a: ClaimRecord, b: ClaimRecord, zones: Zones): Result<Order, ProjectionError> {
    if BySequence(a, b) then Ok(Compare(a.sourceSeq.value, b.sourceSeq.value))
    else if a.sourceTime.Some? && b.sourceTime.Some? then
      match zones(a.sourceTime.value)
      case Err(e) => Err(e)
      case Ok(left) =>
        match zones(b.sourceTime.value)
        case Err(e) => Err(e)
        case Ok(right) => Ok(ComparePair(left.possible, right.possible))
    else Ok(Equal)
  }

  predicate Dominates(a: ClaimRecord, b: ClaimRecord, zones: Zones) {
    SourceOrder(a, b, zones) == Ok(Greater)
  }

  // --------------------------------------------------------------- one slot

  /** A question: the history, the bounds, the policy and the resolved window. */
  datatype Question = Question(h: History, knowledge: TxBound, query: Window, policy: Policy)

  predicate Known(q: Question, c: ClaimId) {
    c in q.h.claims && WithinTx(q.h.claims[c].tx, q.knowledge)
  }

  predicate Counts(q: Question, c: ClaimId, zones: Zones)
    requires c in q.h.claims
  {
    match Coverage(q.h.claims[c], q.query, zones)
    case Ok(Some(Definite)) => true
    case Ok(Some(Possible)) => q.policy.possibleCounts
    case _ => false
  }

  function CertaintyOf(q: Question, c: ClaimId, zones: Zones): Certainty
    requires c in q.h.claims && Counts(q, c, zones)
  {
    Coverage(q.h.claims[c], q.query, zones).value.value
  }

  function CandidatesOf(q: Question, slot: SlotId, zones: Zones): set<ClaimId> {
    set c | c in q.h.claims && Known(q, c) && q.h.claims[c].slot == slot && Counts(q, c, zones)
  }

  function RetractedIds(q: Question): set<ClaimId> {
    set t | t in q.h.retractions && WithinTx(t.tx, q.knowledge) :: t.target
  }

  function StandingOf(q: Question, slot: SlotId, zones: Zones): set<ClaimId> {
    CandidatesOf(q, slot, zones) - RetractedIds(q)
  }

  /** A relation that removes its target from among `standing`. */
  predicate Removes(q: Question, standing: set<ClaimId>, r: Relation) {
    && WithinTx(r.tx, q.knowledge) && r.kind == Supersedes && r.target.Some?
    && r.from in standing && r.target.value in standing && r.target.value in q.h.claims
    && q.h.claims[r.target.value].authority <= r.authority
  }

  function RemovedFrom(q: Question, standing: set<ClaimId>): set<ClaimId> {
    set r | r in q.h.relations && Removes(q, standing, r) :: r.target.value
  }

  ghost predicate Claims(q: Question, s: set<ClaimId>) {
    forall c | c in s :: c in q.h.claims
  }

  /** A user and a supplier are both still standing, and disagree across sourcing. */
  predicate Contested(q: Question, s: set<ClaimId>)
    requires Claims(q, s)
  {
    && (exists c <- s :: q.h.claims[c].sourcing == User)
    && (exists c <- s :: q.h.claims[c].sourcing == Supplier)
    && (exists c <- s :: exists d <- s ::
          q.h.claims[c].sourcing != q.h.claims[d].sourcing && q.h.claims[c].value != q.h.claims[d].value)
  }

  function TopOf(q: Question, s: set<ClaimId>): set<ClaimId>
    requires Claims(q, s)
  {
    set c | c in s && forall d <- s :: q.h.claims[d].authority <= q.h.claims[c].authority
  }

  predicate OrdersBySource(q: Question, s: set<ClaimId>)
    requires Claims(q, s)
  {
    s != {} && q.h.claims[Lowest(s)].supersession == BySourceOrder
  }

  predicate DominatedIn(q: Question, s: set<ClaimId>, c: ClaimId, zones: Zones)
    requires Claims(q, s) && c in q.h.claims
  {
    exists d <- s :: Dominates(q.h.claims[d], q.h.claims[c], zones)
  }

  function UndominatedOf(q: Question, s: set<ClaimId>, zones: Zones): set<ClaimId>
    requires Claims(q, s)
  {
    set c | c in s && !DominatedIn(q, s, c, zones)
  }

  function KeptAmong(q: Question, standing: set<ClaimId>): set<ClaimId> {
    standing - RemovedFrom(q, standing)
  }

  /** The claims among which source order decides, when it is asked. */
  function ComparedAmong(q: Question, kept: set<ClaimId>): (s: set<ClaimId>)
    requires Claims(q, kept)
    ensures s <= kept
  {
    if Contested(q, kept) then {}
    else if OrdersBySource(q, TopOf(q, kept)) then TopOf(q, kept)
    else {}
  }

  function WinnersAmong(q: Question, kept: set<ClaimId>, zones: Zones): (s: set<ClaimId>)
    requires Claims(q, kept)
    ensures s <= kept
  {
    if Contested(q, kept) then kept
    else if OrdersBySource(q, TopOf(q, kept)) then UndominatedOf(q, TopOf(q, kept), zones)
    else TopOf(q, kept)
  }

  function KeptOf(q: Question, slot: SlotId, zones: Zones): (s: set<ClaimId>)
    ensures Claims(q, s)
  {
    KeptAmong(q, StandingOf(q, slot, zones))
  }

  function WinnersOf(q: Question, slot: SlotId, zones: Zones): (s: set<ClaimId>)
    ensures Claims(q, s)
  {
    WinnersAmong(q, KeptOf(q, slot, zones), zones)
  }

  /** What a winner superseded: by a relation of its own, or by coming later. */
  function SupersededBy(q: Question, standing: set<ClaimId>, compared: set<ClaimId>, c: ClaimId, zones: Zones): set<ClaimId>
    requires Claims(q, compared) && c in q.h.claims
  {
    (set r | r in q.h.relations && Removes(q, standing, r) && r.from == c :: r.target.value)
    + (set d | d in compared && c in compared && Dominates(q.h.claims[c], q.h.claims[d], zones))
  }

  function CandidateOf(q: Question, standing: set<ClaimId>, compared: set<ClaimId>, c: ClaimId, zones: Zones): Candidate
    requires Claims(q, compared) && c in q.h.claims && Counts(q, c, zones)
  {
    Candidate(c, q.h.claims[c].value, q.h.claims[c].sourcing, CertaintyOf(q, c, zones),
              Ascending(SupersededBy(q, standing, compared, c, zones)))
  }

  predicate Agree(q: Question, s: set<ClaimId>)
    requires Claims(q, s)
  {
    forall c <- s :: forall d <- s :: q.h.claims[c].value == q.h.claims[d].value
  }

  ghost predicate Counted(q: Question, ids: seq<ClaimId>, zones: Zones) {
    forall c | c in ids :: c in q.h.claims && Counts(q, c, zones)
  }

  ghost predicate AllCount(q: Question, s: set<ClaimId>, zones: Zones) {
    forall c | c in s :: c in q.h.claims && Counts(q, c, zones)
  }

  function CandidateList(q: Question, standing: set<ClaimId>, compared: set<ClaimId>, ids: seq<ClaimId>, zones: Zones): seq<Candidate>
    requires Claims(q, compared) && Counted(q, ids, zones)
    decreases |ids|
  {
    if ids == [] then []
    else [CandidateOf(q, standing, compared, ids[0], zones)] + CandidateList(q, standing, compared, ids[1..], zones)
  }

  lemma {:induction false} SubsetCounts(q: Question, s: set<ClaimId>, some: set<ClaimId>, zones: Zones)
    requires AllCount(q, s, zones) && some <= s
    ensures Counted(q, Ascending(some), zones)
  {
    AscendingLists(some);
    forall c | c in Ascending(some) ensures c in q.h.claims && Counts(q, c, zones) {
      assert c in Elements(Ascending(some));
    }
  }

  /** A value if the winners agree, a conflict if they do not. */
  function Reported(q: Question, standing: set<ClaimId>, compared: set<ClaimId>, winners: set<ClaimId>, zones: Zones): SlotState
    requires AllCount(q, standing, zones) && winners <= standing && compared <= standing
  {
    SubsetCounts(q, standing, winners, zones);
    var list := CandidateList(q, standing, compared, Ascending(winners), zones);
    if Agree(q, winners) then Value(list) else Conflicted(list)
  }

  /** The state of a slot, given its candidates and those of them not retracted. */
  function StateFrom(q: Question, candidates: set<ClaimId>, standing: set<ClaimId>, zones: Zones): SlotState
    requires AllCount(q, standing, zones)
  {
    if candidates == {} then Absent
    else if standing == {} then Retracted
    else
      var kept := KeptAmong(q, standing);
      Reported(q, standing, ComparedAmong(q, kept), WinnersAmong(q, kept, zones), zones)
  }

  function StateOf(q: Question, slot: SlotId, zones: Zones): SlotState {
    StateFrom(q, CandidatesOf(q, slot, zones), StandingOf(q, slot, zones), zones)
  }

  // --------------------------------------------------------------- the view

  function SlotsKnown(q: Question): set<SlotId> {
    set c | c in q.h.claims && Known(q, c) :: q.h.claims[c].slot
  }

  function ViewsOf(q: Question, slots: seq<SlotId>, zones: Zones): seq<SlotView>
    decreases |slots|
  {
    if slots == [] then [] else [SlotView(slots[0], StateOf(q, slots[0], zones))] + ViewsOf(q, slots[1..], zones)
  }

  /** Pairs of winners of one slot that disagree. */
  predicate Disagree(q: Question, slot: SlotId, a: ClaimId, b: ClaimId, zones: Zones) {
    a < b && a in WinnersOf(q, slot, zones) && b in WinnersOf(q, slot, zones) && q.h.claims[a].value != q.h.claims[b].value
  }

  function ProposalsFor(q: Question, slot: SlotId, zones: Zones): set<Proposal> {
    set a, b | a in WinnersOf(q, slot, zones) && b in WinnersOf(q, slot, zones) && Disagree(q, slot, a, b, zones) :: Proposal(a, b)
  }

  function ProposalsOf(q: Question, zones: Zones): set<Proposal> {
    set slot, p | slot in SlotsKnown(q) && p in ProposalsFor(q, slot, zones) :: p
  }

  /** A civil time that cannot be resolved, where the projection needs it. */
  ghost predicate Unresolvable(q: Question, zones: Zones) {
    || (exists c :: Known(q, c) && Coverage(q.h.claims[c], q.query, zones).Err?)
    || (exists slot: SlotId :: slot in SlotsKnown(q) && StuckOn(q, slot, zones))
  }

  /** Source order is asked in a slot and cannot answer. */
  ghost predicate StuckOn(q: Question, slot: SlotId, zones: Zones) {
    Incomparable(q, ComparedAmong(q, KeptOf(q, slot, zones)), zones)
  }

  ghost predicate Incomparable(q: Question, s: set<ClaimId>, zones: Zones)
    requires Claims(q, s)
  {
    exists a, b :: a in s && b in s && SourceOrder(q.h.claims[a], q.h.claims[b], zones).Err?
  }

  function ViewOf(q: Question, zones: Zones): View {
    View(ViewsOf(q, Ascending(SlotsKnown(q)), zones), ProposalsOf(q, zones))
  }
}
