/** Runs of the store: a history of committed states, and requests whose reads may
    come from any of them. */
module StoreRequests {

  import opened Ordered
  import opened Wrappers
  import opened Succession
  import opened StoreTables
  import opened StoreInvariants
  import opened StoreStaging
  import opened StoreWorld
  import opened StoreCounters
  import opened StoreOperations
  import opened StoreDerivatives
  import opened StoreBalance

  datatype Entry = Entry(totals: Totals, batches: nat)

  /** One committed state. `ledger` is the append-only chain outside the store. `started`
      and `tally` are history variables: which operations were ever started, and the
      rows each one really destroyed. */
  datatype World = World(
    db: Db, audit: Audit, ledger: map<Operation, Entry>,
    started: set<Operation>, tally: map<Operation, Totals>)

  /** An index into the history: when a request made one of its reads. */
  type Moment = nat

  /** What moves memories through their life. */
  datatype LifeRequest =
    | Capture(observed: Moment, holder: Moment, found: Moment, candidate: Candidate, key: Option<KeyId>, ceiling: nat)
    | RefusalKey(refused: KeyId)
    | Supersession(walked: map<MemoryId, MemoryId>, found: Moment, prior: MemoryId, heir: MemoryId, at: nat)
    | Deadline(id: MemoryId, until: Option<nat>)
    | Materialize(materialized: seq<Kind>)
    | Expiry(due: Moment, grouped: Moment, prepared: Moment, ids: set<MemoryId>, kinds: seq<Kind>, now: nat)
    | Redigesting(stale: Moment, rows: seq<MemoryId>)
    | ClaimRecord(claim: ClaimId, content: string, cites: set<MemoryId>)

  /** What the embedding pipeline does. */
  datatype PipelineRequest =
    | Embedding(work: WorkKey, identity: Identity, pieces: nat)
    | EmptyCompletion(begun: Moment, claimed: Moment, looked: Moment, moot: WorkKey, own: Identity)
    | Failure(failed: WorkKey, number: nat, dead: bool, requeued: bool)
    | Reembedding(missing: Moment, revision: Revision, modelId: string, after: Option<MemoryId>, limit: nat)
    | Activating(activated: Revision, model: Identity, firstSeen: nat)
    | Dropping(dropped: Revision)

  /** What erases. */
  datatype ErasureRequest =
    | Erasing(target: MemoryId, read: Moment, cascade: bool, derived: Moment, ids: seq<MemoryId>, looks: seq<Moment>, at: nat)
    | ScopeStart(previous: Moment, content: Moment, keysAt: Moment, serial: nat)
    | Draining(receipt: Moment, batchRead: Moment, draining: nat, batch: nat, time: nat)
    | Acknowledge(place: Target, delivered: Operation, appended: Moment)

  datatype Request = Life(life: LifeRequest) | Pipeline(pipeline: PipelineRequest) | Erasure(erasure: ErasureRequest)

  /** Every committed state so far keeps the invariant, and the present state, which may
      lie inside a transaction, follows them all. */
  ghost predicate Past(h: seq<World>, db: Db) {
    && (forall i | 0 <= i < |h| :: Good(h[i].db) && Onward(h[i].db, db))
    && (forall i, j | 0 <= i <= j < |h| :: Precedes(h[i].db, h[j].db))
  }

  lemma {:induction false} PastOnward(h: seq<World>, db: Db, next: Db)
    requires Past(h, db) && Good(db) && Good(next) && Onward(db, next)
    ensures Past(h, next)
  {
    forall i | 0 <= i < |h| ensures Onward(h[i].db, next) {
      OnwardTransitive(h[i].db, db, next);
    }
  }

  // ------------------------------------------------------------------- life

  /** The statements a request stages, or none when its reads made it refuse. */
  ghost function LifeStaged(h: seq<World>, r: LifeRequest): Option<seq<Statement>> {
    match r
    case Capture(observed, holder, found, candidate, key, ceiling) =>
      if observed < |h| && holder < |h| && found < |h| then
        CaptureStatements(h[observed].db, h[holder].db, h[found].db, candidate, key, ceiling)
      else None
    case RefusalKey(key) => Some([OnDetails(InsertKey(key, None))])
    case Supersession(walked, found, prior, heir, at) =>
      if found < |h| then SupersedeStatements(walked, h[found].db, prior, heir, at) else None
    case Deadline(id, until) => Some([OnRows(SetValidUntil(id, until))])
    case Materialize(kinds) => Some(PrepareExpiry(kinds))
    case Expiry(due, grouped, prepared, ids, kinds, now) =>
      if due <= grouped <= prepared < |h| && ids <= Due(h[due].db, now)
         && KindsOf(h[grouped].db, ids, kinds) && Materialized(h[prepared].db, kinds)
      then Some(ExpiryStatements(kinds, ids, now)) else None
    case Redigesting(stale, rows) =>
      if stale < |h| && forall m | m in rows :: m in Undigested(h[stale].db)
      then Some(RedigestStatements(h[stale].db, rows)) else None
    case ClaimRecord(claim, content, cites) => Some([OnClaims(InsertClaim(claim, content, cites))])
  }

  lemma {:induction false} LifeSteady(h: seq<World>, db: Db, r: LifeRequest)
    requires Past(h, db) && !r.Capture? && LifeStaged(h, r).Some?
    ensures AllSteady(db, LifeStaged(h, r).value, {})
  {
    match r
    case Supersession(walked, found, prior, heir, at) => SupersedeSteady(walked, h[found].db, db, prior, heir, at);
    case Materialize(kinds) => PrepareSteady(db, kinds);
    case Expiry(_, _, _, ids, kinds, now) => ExpirySteady(db, kinds, ids, now);
    case Redigesting(stale, rows) => RedigestSteady(h[stale].db, db, rows);
    case _ => SingleSteady(h, db, r);
  }

  lemma {:induction false} SingleSteady(h: seq<World>, db: Db, r: LifeRequest)
    requires r.RefusalKey? || r.Deadline? || r.ClaimRecord?
    ensures LifeStaged(h, r).Some? && AllSteady(db, LifeStaged(h, r).value, {})
  {
  }

  lemma {:induction false} LifeFamiliar(h: seq<World>, r: LifeRequest)
    requires !r.Capture? && LifeStaged(h, r).Some?
    ensures Familiar(LifeStaged(h, r).value)
  {
    match r
    case Materialize(kinds) => PrepareFamiliar(kinds);
    case Expiry(_, _, _, ids, kinds, now) => ExpiryFamiliar(kinds, ids);
    case Redigesting(stale, rows) => RedigestFamiliar(h[stale].db, rows);
    case _ =>
  }

  lemma {:induction false} PrepareFamiliar(kinds: seq<Kind>)
    ensures Familiar(PrepareExpiry(kinds))
    decreases |kinds|
  {
    if kinds != [] {
      PrepareFamiliar(kinds[1..]);
    }
  }

  lemma {:induction false} ExpiryFamiliar(kinds: seq<Kind>, ids: set<MemoryId>)
    ensures Familiar(ExpiryCounters(kinds, ids))
    decreases |kinds|
  {
    if kinds != [] {
      ExpiryFamiliar(kinds[1..], ids);
    }
  }

  lemma {:induction false} RedigestFamiliar(db: Db, ids: seq<MemoryId>)
    requires forall m | m in ids :: m in db.memory
    ensures Familiar(RedigestStatements(db, ids)) && AllLevel(RedigestStatements(db, ids))
    decreases |ids|
  {
    if ids != [] {
      RedigestFamiliar(db, ids[1..]);
    }
  }

  lemma {:induction false} LifeKeeps(h: seq<World>, db: Db, r: LifeRequest)
    requires Past(h, db) && Good(db) && LifeStaged(h, r).Some? && ExecAll(db, LifeStaged(h, r).value).Ran?
    ensures var end := ExecAll(db, LifeStaged(h, r).value).db; Good(end) && Onward(db, end)
  {
    if r.Capture? {
      CaptureKeeps(h[r.observed].db, h[r.holder].db, h[r.found].db, db, r.candidate, r.key, r.ceiling);
    } else {
      LifeSteady(h, db, r);
      LifeFamiliar(h, r);
      SteadyOnward(db, LifeStaged(h, r).value, {});
    }
  }

  lemma {:induction false} CaptureBalances(h: seq<World>, db: Db, r: LifeRequest)
    requires Past(h, db) && Good(db) && r.Capture? && LifeStaged(h, r).Some?
    ensures KeepsBalance(db, LifeStaged(h, r).value)
  {
    match Holder(h[r.holder].db, FingerprintOf(r.candidate.kind, r.candidate.content))
    case None => InsertBalances(h[r.observed].db, db, r.candidate, r.key);
    case Some(id) => MergeBalances(h[r.observed].db, db, id, h[r.found].db.memory[id].record, r.candidate, r.key);
  }

  lemma {:induction false} DueBalances(h: seq<World>, db: Db, r: LifeRequest)
    requires Past(h, db) && Good(db) && r.Expiry? && LifeStaged(h, r).Some?
    ensures KeepsBalance(db, LifeStaged(h, r).value)
  {
    if Balanced(db) {
      ExpiryReady(h, db, r.due, r.grouped, r.prepared, r.ids, r.kinds, r.now);
      ExpiryBalances(db, r.kinds, r.ids, r.now);
    }
  }

  lemma {:induction false} LifeBalances(h: seq<World>, db: Db, r: LifeRequest)
    requires Past(h, db) && Good(db) && LifeStaged(h, r).Some?
    ensures KeepsBalance(db, LifeStaged(h, r).value)
  {
    match r
    case Capture(_, _, _, _, _, _) => CaptureBalances(h, db, r);
    case Supersession(walked, found, prior, heir, at) => SupersedeBalances(walked, h[found].db, db, prior, heir, at);
    case Materialize(kinds) => PreparedBalances(db, kinds);
    case Expiry(_, _, _, _, _, _) => DueBalances(h, db, r);
    case _ => QuietBalances(h, db, r);
  }

  lemma {:induction false} PreparedBalances(db: Db, kinds: seq<Kind>)
    ensures KeepsBalance(db, PrepareExpiry(kinds))
  {
    if Balanced(db) {
      PrepareBalances(db, kinds);
    }
  }

  lemma {:induction false} QuietBalances(h: seq<World>, db: Db, r: LifeRequest)
    requires (r.RefusalKey? || r.Deadline? || r.Redigesting? || r.ClaimRecord?) && LifeStaged(h, r).Some?
    ensures KeepsBalance(db, LifeStaged(h, r).value)
  {
    if r.Redigesting? {
      RedigestFamiliar(h[r.stale].db, r.rows);
    }
    LevelKeepsBalance(db, LifeStaged(h, r).value);
  }

  /** The kinds read and the buckets made earlier still serve: kinds never change and
      buckets never go. */
  lemma {:induction false} ExpiryReady(h: seq<World>, db: Db, due: Moment, grouped: Moment, prepared: Moment,
                    ids: set<MemoryId>, kinds: seq<Kind>, now: nat)
    requires Past(h, db) && due <= grouped <= prepared < |h| && ids <= Due(h[due].db, now)
    requires KindsOf(h[grouped].db, ids, kinds) && Materialized(h[prepared].db, kinds)
    ensures KindsDistinct(kinds) && Materialized(db, kinds)
    ensures forall m | m in ids && m in db.memory :: db.memory[m].kind in kinds
  {
    assert Precedes(h[due].db, h[grouped].db) && Precedes(h[grouped].db, db) && Precedes(h[prepared].db, db);
    forall m | m in ids && m in db.memory ensures db.memory[m].kind in kinds {
      assert m in h[grouped].db.memory;
    }
  }

  // --------------------------------------------------------------- pipeline

  ghost function PipelineStaged(h: seq<World>, r: PipelineRequest): Option<seq<Statement>> {
    match r
    case Embedding(work, identity, pieces) => if pieces > 0 then Some(VectorStatements(work, identity, pieces)) else None
    case EmptyCompletion(begun, claimed, looked, work, own) =>
      if begun <= claimed <= looked < |h| && MayDrain(h[begun].db, work.revision, own)
         && work in h[claimed].db.details.work && CompletesEmpty(h[looked].db, work, own)
      then Some([OnDetails(CompleteWork(work))]) else None
    case Failure(work, number, dead, requeued) =>
      Some([OnDetails(FailWork(work, number, dead))] + if requeued then [OnDetails(RequeueWork(work))] else [])
    case Reembedding(missing, revision, modelId, after, limit) =>
      if missing < |h| then Some(ReembedStatements(Selected(h[missing].db, revision, after, limit), revision, modelId)) else None
    case Activating(revision, identity, now) =>
      if revision > 0 && identity.dims > 0 then Some(ActivateStatements(revision, identity, now)) else None
    case Dropping(revision) => Some(DropStatements(revision))
  }

  function Selected(db: Db, revision: Revision, after: Option<MemoryId>, limit: nat): seq<MemoryId> {
    FirstById(Missing(db, revision, after), limit)
  }

  lemma {:induction false} FailureSteady(db: Db, failed: WorkKey, number: nat, dead: bool, requeued: bool, sts: seq<Statement>)
    requires sts == [OnDetails(FailWork(failed, number, dead))] + if requeued then [OnDetails(RequeueWork(failed))] else []
    ensures AllSteady(db, sts, {}) && Familiar(sts)
  {
  }

  lemma {:induction false} FailureKeeps(h: seq<World>, db: Db, r: PipelineRequest)
    requires Past(h, db) && Good(db) && r.Failure? && PipelineStaged(h, r).Some? && ExecAll(db, PipelineStaged(h, r).value).Ran?
    ensures var end := ExecAll(db, PipelineStaged(h, r).value).db; Good(end) && Onward(db, end)
  {
    FailureSteady(db, r.failed, r.number, r.dead, r.requeued, PipelineStaged(h, r).value);
    SteadyOnward(db, PipelineStaged(h, r).value, {});
  }

  lemma {:induction false} QueueKeeps(h: seq<World>, db: Db, r: PipelineRequest)
    requires Good(db) && (r.Embedding? || r.EmptyCompletion?) && PipelineStaged(h, r).Some?
    requires ExecAll(db, PipelineStaged(h, r).value).Ran?
    ensures var end := ExecAll(db, PipelineStaged(h, r).value).db; Good(end) && Onward(db, end)
  {
    if r.Embedding? {
      WorkerKeeps(db, r.work, r.identity, r.pieces);
    } else {
      EmptyCompletionKeeps(db, r.moot);
    }
  }

  lemma {:induction false} PipelineKeeps(h: seq<World>, db: Db, r: PipelineRequest)
    requires Past(h, db) && Good(db) && PipelineStaged(h, r).Some? && ExecAll(db, PipelineStaged(h, r).value).Ran?
    ensures var end := ExecAll(db, PipelineStaged(h, r).value).db; Good(end) && Onward(db, end)
  {
    match r
    case Embedding(_, _, _) => QueueKeeps(h, db, r);
    case EmptyCompletion(_, _, _, _, _) => QueueKeeps(h, db, r);
    case Failure(_, _, _, _) => FailureKeeps(h, db, r);
    case Reembedding(missing, revision, modelId, after, limit) =>
      ReembedKeeps(db, Selected(h[missing].db, revision, after, limit), revision, modelId);
    case Activating(revision, identity, now) => ActivationKeeps(db, revision, identity, now);
    case Dropping(revision) => DropKeeps(db, revision);
  }

  lemma {:induction false} PieceLevel(id: MemoryId, revision: Revision, ordinal: nat, count: nat)
    ensures AllLevel(PieceStatements(id, revision, ordinal, count))
    decreases count
  {
    if count > 0 {
      PieceLevel(id, revision, ordinal + 1, count - 1);
    }
  }

  lemma {:induction false} ReembedLevel(ids: seq<MemoryId>, revision: Revision, modelId: string)
    ensures AllLevel(ReembedStatements(ids, revision, modelId))
    decreases |ids|
  {
    if ids != [] {
      ReembedLevel(ids[1..], revision, modelId);
    }
  }

  lemma {:induction false} PipelineBalances(h: seq<World>, db: Db, r: PipelineRequest)
    requires PipelineStaged(h, r).Some?
    ensures KeepsBalance(db, PipelineStaged(h, r).value)
  {
    var sts := PipelineStaged(h, r).value;
    match r {
      case Embedding(work, identity, pieces) => PieceLevel(work.memory, work.revision, 0, pieces);
      case Reembedding(missing, revision, modelId, after, limit) =>
        ReembedLevel(Selected(h[missing].db, revision, after, limit), revision, modelId);
      case _ =>
    }
    LevelKeepsBalance(db, sts);
  }
}
