/** The append-only history of claims: what may be appended, and what stays true of it. */
module ClaimHistories {

  import opened Wrappers

  type ClaimId = nat

  /** Numbered in the canonical order of scope, subject, predicate and slot key. */
  type SlotId = nat

  type ScopeId = nat

  /** A civil time as its source wrote it; what it means is for the projection to resolve. */
  type TimePoint = nat

  datatype TxStamp = TxStamp(seq_: nat, recordedAt: nat)

  datatype Bound = Open | Inclusive(point: TimePoint) | Exclusive(point: TimePoint)

  datatype ValidTime = Explicit(start: Bound, end: Bound) | FromSourceTime | Timeless

  datatype ValidTimeMode = ExplicitMode | FromSourceTimeMode | TimelessMode

  datatype Sourcing = User | Seed | Supplier

  datatype SupersessionRule = BySourceOrder | ExplicitOnly | Accumulate

  /** `authority` is the rank of the level the gate assigned, inferred being the least. */
  datatype ClaimRecord = ClaimRecord(
    scope: ScopeId, slot: SlotId, value: string,
    valid: ValidTime, sourceTime: Option<TimePoint>, sourceSeq: Option<nat>,
    tx: TxStamp, authority: nat, sourcing: Sourcing, supersession: SupersessionRule)

  datatype RelationKind = Supersedes | Contradicts | DerivedFrom

  /** A relation may point outside the history; then it has no target claim. */
  datatype Relation = Relation(from: ClaimId, target: Option<ClaimId>, kind: RelationKind, authority: nat, tx: TxStamp)

  datatype Retraction = Retraction(target: ClaimId, tx: TxStamp)

  datatype History = History(
    claims: map<ClaimId, ClaimRecord>, relations: seq<Relation>, retractions: seq<Retraction>,
    usedTx: map<ScopeId, set<nat>>)

  datatype HistoryError =
    | DuplicateClaim(id: ClaimId)
    | UnknownClaim(id: ClaimId)
    | CrossSlotSupersession
    | DuplicateTx(number: nat)
    | InvalidValidTime(id: ClaimId)

  function UsedIn(h: History, scope: ScopeId): set<nat> {
    if scope in h.usedTx then h.usedTx[scope] else {}
  }

  /** Every endpoint is known, supersession stays inside a slot, and a scope uses a
      transaction number for one claim at most. */
  ghost predicate WellFormed(h: History) {
    && (forall c | c in h.claims :: h.claims[c].tx.seq_ in UsedIn(h, h.claims[c].scope))
    && (forall c, d | c in h.claims && d in h.claims && c != d ::
          h.claims[c].scope != h.claims[d].scope || h.claims[c].tx.seq_ != h.claims[d].tx.seq_)
    && (forall r | r in h.relations ::
          r.from in h.claims
          && (r.target.Some? ==> r.target.value in h.claims)
          && (r.target.Some? && r.kind == Supersedes ==> h.claims[r.from].slot == h.claims[r.target.value].slot))
    && (forall t | t in h.retractions :: t.target in h.claims)
  }

  /** Nothing recorded is ever rewritten. */
  ghost predicate Extends(later: History, earlier: History) {
    && (forall c | c in earlier.claims :: c in later.claims && later.claims[c] == earlier.claims[c])
    && earlier.relations <= later.relations && earlier.retractions <= later.retractions
  }

  predicate Matches(valid: ValidTime, mode: ValidTimeMode) {
    match valid
    case Explicit(_, _) => mode == ExplicitMode
    case FromSourceTime => mode == FromSourceTimeMode
    case Timeless => mode == TimelessMode
  }

  /** When the record holds, if its predicate's mode is this one, is said by the record
      itself: an interval, its source time, or that it always does. */
  predicate SaysWhen(record: ClaimRecord, mode: ValidTimeMode) {
    match mode
    case ExplicitMode => record.valid.Explicit?
    case FromSourceTimeMode => record.valid.FromSourceTime? && record.sourceTime.Some?
    case TimelessMode => record.valid.Timeless?
  }

  /** The check of the time representation against the registered predicate. */
  function ValidateTime(id: ClaimId, record: ClaimRecord, mode: ValidTimeMode): (r: Result<(), HistoryError>)
    ensures r == if SaysWhen(record, mode) then Ok(()) else Err(InvalidValidTime(id))
  {
    if !Matches(record.valid, mode) || (record.valid.FromSourceTime? && record.sourceTime.None?)
    then Err(InvalidValidTime(id))
    else Ok(())
  }

  class ClaimHistory {
    var claims: map<ClaimId, ClaimRecord>
    var relations: seq<Relation>
    var retractions: seq<Retraction>
    var usedTx: map<ScopeId, set<nat>>

    function Value(): History
      reads this
    {
      History(claims, relations, retractions, usedTx)
    }

    constructor ()
      ensures Value() == History(map[], [], [], map[]) && WellFormed(Value())
    {
      claims, relations, retractions, usedTx := map[], [], [], map[];
    }

    /** A claim is appended exactly when its id is new and its number unused in its scope. */
    method AppendClaim(id: ClaimId, record: ClaimRecord) returns (r: Result<(), HistoryError>)
      requires WellFormed(Value())
      modifies this
      ensures WellFormed(Value()) && Extends(Value(), old(Value()))
      ensures r == if id in old(claims) then Err(DuplicateClaim(id))
                   else if record.tx.seq_ in UsedIn(old(Value()), record.scope) then Err(DuplicateTx(record.tx.seq_))
                   else Ok(())
      ensures r.Ok? ==> claims == old(claims)[id := record]
      ensures r.Err? ==> claims == old(claims) && forall s :: UsedIn(Value(), s) == UsedIn(old(Value()), s)
      ensures relations == old(relations) && retractions == old(retractions)
    {
      if id in claims {
        return Err(DuplicateClaim(id));
      }
      if record.scope !in usedTx {
        usedTx := usedTx[record.scope := {}];
      }
      if record.tx.seq_ in usedTx[record.scope] {
        return Err(DuplicateTx(record.tx.seq_));
      }
      usedTx := usedTx[record.scope := usedTx[record.scope] + {record.tx.seq_}];
      claims := claims[id := record];
      return Ok(());
    }

    method AppendRelation(relation: Relation) returns (r: Result<(), HistoryError>)
      requires WellFormed(Value())
      modifies this
      ensures WellFormed(Value()) && Extends(Value(), old(Value()))
      ensures r == if relation.from !in old(claims) then Err(UnknownClaim(relation.from))
                   else if relation.target.Some? && relation.target.value !in old(claims) then Err(UnknownClaim(relation.target.value))
                   else if relation.target.Some? && relation.kind == Supersedes
                     && old(claims)[relation.from].slot != old(claims)[relation.target.value].slot then Err(CrossSlotSupersession)
                   else Ok(())
      ensures Value() == if r.Ok? then old(Value()).(relations := old(relations) + [relation]) else old(Value())
    {
      if relation.from !in claims {
        return Err(UnknownClaim(relation.from));
      }
      if relation.target.Some? {
        var target := relation.target.value;
        if target !in claims {
          return Err(UnknownClaim(target));
        }
        if relation.kind == Supersedes && claims[relation.from].slot != claims[target].slot {
          return Err(CrossSlotSupersession);
        }
      }
      relations := relations + [relation];
      return Ok(());
    }

    method AppendRetraction(retraction: Retraction) returns (r: Result<(), HistoryError>)
      requires WellFormed(Value())
      modifies this
      ensures WellFormed(Value()) && Extends(Value(), old(Value()))
      ensures r == if retraction.target in old(claims) then Ok(()) else Err(UnknownClaim(retraction.target))
      ensures Value() == if r.Ok? then old(Value()).(retractions := old(retractions) + [retraction]) else old(Value())
    {
      if retraction.target !in claims {
        return Err(UnknownClaim(retraction.target));
      }
      retractions := retractions + [retraction];
      return Ok(());
    }
  }
}
