/** What one committed request ran on the tables, and which request a statement on the
    memory rows can have come from. */
module StoreSteps {

  import opened Wrappers
  import opened Succession
  import opened StoreTables
  import opened StoreStaging
  import opened StoreWorld
  import opened StoreRequests
  import opened StoreRuns
  import StoreResidue
  import StoreErasing

  /** The statements of a request that committed, in order. */
  ghost function Batched(h: seq<World>, w: World, r: Request): seq<Statement>
    requires Effect(h, w, r).Some?
  {
    match r
    case Life(life) => LifeStaged(h, life).value
    case Pipeline(pipeline) => PipelineStaged(h, pipeline).value
    case Erasure(e) =>
      (match e
       case Erasing(target, _, cascade, _, _, _, at) => EraseBatch(target, ShellsRead(h, e), cascade, at).statements
       case Draining(_, batchRead, _, batch, time) => DrainBatch(DrainShells(h[batchRead].db, batch), time).statements
       case _ => [])
  }

  /** A committed request does to the tables what its statements do, and no more. */
  lemma {:induction false} EffectRuns(h: seq<World>, w: World, r: Request, next: World)
    requires Effect(h, w, r) == Some(next)
    ensures ExecAll(w.db, Batched(h, w, r)).Ran? && ExecAll(w.db, Batched(h, w, r)).db == next.db
  {
    if r.Erasure? {
      ErasureRuns(h, w, r.erasure, next);
    }
  }

  lemma {:induction false} ErasureRuns(h: seq<World>, w: World, e: ErasureRequest, next: World)
    requires ErasureEffect(h, w, e) == Some(next)
    ensures var sts := Batched(h, w, Erasure(e)); ExecAll(w.db, sts).Ran? && ExecAll(w.db, sts).db == next.db
  {
    match e
    case Erasing(_, _, _, _, _, _, _) => ErasingRuns(h, w, e, next);
    case Draining(_, _, _, _, _) => DrainingRuns(h, w, e, next);
    case ScopeStart(_, _, _, serial) => StoreErasing.StartRuns(Running(w.db, w.audit, 0), serial);
    case Acknowledge(t, o, _) => NoteRuns(w, t, o, next);
  }

  lemma {:induction false} ErasingRuns(h: seq<World>, w: World, e: ErasureRequest, next: World)
    requires e.Erasing? && ErasureEffect(h, w, e) == Some(next)
    ensures var sts := Batched(h, w, Erasure(e)); ExecAll(w.db, sts).Ran? && ExecAll(w.db, sts).db == next.db
  {
    StoreErasing.EraseRuns(Running(w.db, w.audit, 0), e.target, ShellsRead(h, e), e.cascade, e.at);
  }

  lemma {:induction false} DrainingRuns(h: seq<World>, w: World, e: ErasureRequest, next: World)
    requires e.Draining? && ErasureEffect(h, w, e) == Some(next)
    ensures var sts := Batched(h, w, Erasure(e)); ExecAll(w.db, sts).Ran? && ExecAll(w.db, sts).db == next.db
  {
    DrainingEffect(h, w, e, next);
    DrainBatchRuns(w, e.draining, DrainShells(h[e.batchRead].db, e.batch), e.time, next);
  }

  lemma {:induction false} DrainBatchRuns(w: World, serial: nat, shells: seq<Shell>, time: nat, next: World)
    requires var end := ExecLines(Running(w.db, w.audit, 0), DrainLines(EraseScope(serial), shells, time));
             end.Running? && end.db == next.db
    ensures var sts := DrainBatch(shells, time).statements; ExecAll(w.db, sts).Ran? && ExecAll(w.db, sts).db == next.db
  {
    StoreErasing.DrainRuns(Running(w.db, w.audit, 0), EraseScope(serial), shells, time);
  }

  lemma {:induction false} NoteRuns(w: World, t: Target, o: Operation, next: World)
    requires var end := ExecLines(Running(w.db, w.audit, 0), [Note(MarkDelivered(t, o))]); end.Running? && end.db == next.db
    ensures next.db == w.db
  {
    var p := Running(w.db, w.audit, 0);
    var line := Note(MarkDelivered(t, o));
    assert [line][1..] == [];
    assert ExecLines(p, [line]) == ExecLines(ExecLine(p, line), []);
  }

  /** The plan an erasure request carries out. */
  lemma {:induction false} ErasurePlan(h: seq<World>, w: World, e: ErasureRequest) returns (p: StoreErasing.Plan)
    requires (e.Erasing? || e.Draining?) && Effect(h, w, Erasure(e)).Some?
    ensures StoreErasing.Proper(p) && StoreErasing.Built(p).statements == Batched(h, w, Erasure(e))
  {
    if e.Erasing? {
      StoreErasing.PlansProper(e.target, ShellsRead(h, e), e.cascade, e.at);
      p := StoreErasing.ErasePlan(e.target, ShellsRead(h, e), e.cascade, e.at);
    } else {
      StoreErasing.PlansProper(0, DrainShells(h[e.batchRead].db, e.batch), false, e.time);
      p := StoreErasing.DrainPlan(DrainShells(h[e.batchRead].db, e.batch), e.time);
    }
  }

  /** The batch of an erasure deletes, counts and lays tombstones. */
  lemma {:induction false} ErasureShrinks(h: seq<World>, w: World, e: ErasureRequest)
    requires Effect(h, w, Erasure(e)).Some?
    ensures StoreResidue.AllShrink(Batched(h, w, Erasure(e)))
  {
    if e.Erasing? || e.Draining? {
      var p := ErasurePlan(h, w, e);
      StoreErasing.BatchBuries(p);
    }
  }

  // ------------------------------------------------- who writes what

  /** Supersessions, deadlines and expiries come from the requests of those names, for the
      memories they name; tombstones from erasures. */
  ghost predicate RowFits(r: Request, row: RowStatement) {
    match row
    case Supersede(id, _, _, _) => r.Life? && r.life.Supersession? && r.life.prior == id
    case SetValidUntil(id, until) => r == Life(Deadline(id, until))
    case Expire(ids, now) => r.Life? && r.life.Expiry? && r.life.ids == ids && r.life.now == now
    case Tombstone(_, _, _) => r.Erasure?
    case MarkDerived(_) => r.Erasure?
    case Redigest(_, _, _) => r.Life? && r.life.Redigesting?
    case InsertMemory(_, _) => r.Life? && r.life.Capture?
    case Merge(_, _, _) => r.Life? && r.life.Capture?
  }

  /** The worker's commit for one memory at one revision. */
  predicate Embeds(r: Request, m: MemoryId, rev: Revision) {
    r.Pipeline? && r.pipeline.Embedding? && r.pipeline.work.memory == m && r.pipeline.work.revision == rev
  }

  predicate Finishes(r: Request, key: WorkKey) {
    r.Pipeline? && ((r.pipeline.Embedding? && r.pipeline.work == key) || (r.pipeline.EmptyCompletion? && r.pipeline.moot == key))
  }

  predicate Records(r: Request, claim: ClaimId) {
    r.Life? && r.life.ClaimRecord? && r.life.claim == claim
  }

  /** Which request a statement of its batch can come from. */
  ghost predicate Fits(r: Request, st: Statement) {
    match st
    case OnRows(row) => RowFits(r, row)
    case OnClaims(claim) => claim.InsertClaim? ==> Records(r, claim.claim)
    case OnDetails(detail) =>
      (match detail
       case InsertVector(piece) => Embeds(r, piece.memory, piece.revision)
       case CompleteWork(key) => Finishes(r, key)
       case _ => true)
    case _ => true
  }

  ghost predicate AllFit(r: Request, sts: seq<Statement>) {
    forall i | 0 <= i < |sts| :: Fits(r, sts[i])
  }

  lemma {:induction false} DerivationsFit(r: Request, child: MemoryId, parents: seq<MemoryId>)
    ensures AllFit(r, Derivations(child, parents))
    decreases |parents|
  {
    if parents != [] {
      DerivationsFit(r, child, parents[1..]);
    }
  }

  lemma {:induction false} PrepareFits(r: Request, kinds: seq<Kind>)
    ensures AllFit(r, PrepareExpiry(kinds))
    decreases |kinds|
  {
    if kinds != [] {
      PrepareFits(r, kinds[1..]);
    }
  }

  lemma {:induction false} ExpiryFits(r: Request, kinds: seq<Kind>, ids: set<MemoryId>)
    ensures AllFit(r, ExpiryCounters(kinds, ids))
    decreases |kinds|
  {
    if kinds != [] {
      ExpiryFits(r, kinds[1..], ids);
    }
  }

  lemma {:induction false} PiecesFit(r: Request, id: MemoryId, revision: Revision, ordinal: nat, count: nat)
    requires Embeds(r, id, revision)
    ensures AllFit(r, PieceStatements(id, revision, ordinal, count))
    decreases count
  {
    if count > 0 {
      PiecesFit(r, id, revision, ordinal + 1, count - 1);
    }
  }

  lemma {:induction false} ReembedFits(r: Request, ids: seq<MemoryId>, revision: Revision, modelId: string)
    ensures AllFit(r, ReembedStatements(ids, revision, modelId))
    decreases |ids|
  {
    if ids != [] {
      ReembedFits(r, ids[1..], revision, modelId);
    }
  }

  lemma {:induction false} RedigestFits(db: Db, ids: seq<MemoryId>, r: Request)
    requires (forall m | m in ids :: m in db.memory) && r.Life? && r.life.Redigesting?
    ensures AllFit(r, RedigestStatements(db, ids))
    decreases |ids|
  {
    if ids != [] {
      RedigestFits(db, ids[1..], r);
    }
  }

  lemma {:induction false} CaptureFits(h: seq<World>, r: LifeRequest)
    requires r.Capture? && LifeStaged(h, r).Some?
    ensures AllFit(Life(r), LifeStaged(h, r).value)
  {
    match Holder(h[r.holder].db, FingerprintOf(r.candidate.kind, r.candidate.content))
    case None => InsertFits(h[r.observed].db, Life(r), r.candidate, r.key);
    case Some(id) => MergeFits(h[r.observed].db, Life(r), id, h[r.found].db.memory[id].record, r.candidate, r.key);
  }

  lemma {:induction false} InsertFits(observed: Db, r: Request, c: Candidate, key: Option<KeyId>)
    requires r.Life? && r.life.Capture?
    ensures AllFit(r, InsertStatements(observed, c, key))
  {
    DerivationsFit(r, c.id, c.content.parents);
  }

  lemma {:induction false} MergeFits(observed: Db, r: Request, id: MemoryId, expected: Record, c: Candidate, key: Option<KeyId>)
    requires r.Life? && r.life.Capture?
    ensures AllFit(r, MergeStatements(observed, id, expected, c, key))
  {
  }

  lemma {:induction false} LifeFits(h: seq<World>, r: LifeRequest)
    requires LifeStaged(h, r).Some?
    ensures AllFit(Life(r), LifeStaged(h, r).value)
  {
    match r
    case Capture(_, _, _, _, _, _) => CaptureFits(h, r);
    case Materialize(kinds) => PrepareFits(Life(r), kinds);
    case Expiry(_, _, _, ids, kinds, _) => ExpiryFits(Life(r), kinds, ids);
    case Redigesting(stale, rows) => RedigestFits(h[stale].db, rows, Life(r));
    case _ =>
  }

  lemma {:induction false} PipelineFits(h: seq<World>, r: PipelineRequest)
    requires PipelineStaged(h, r).Some?
    ensures AllFit(Pipeline(r), PipelineStaged(h, r).value)
  {
    match r
    case Embedding(work, _, pieces) => PiecesFit(Pipeline(r), work.memory, work.revision, 0, pieces);
    case Reembedding(missing, revision, modelId, after, limit) =>
      ReembedFits(Pipeline(r), Selected(h[missing].db, revision, after, limit), revision, modelId);
    case _ =>
  }

  lemma {:induction false} ShrinkFits(r: Request, sts: seq<Statement>)
    requires r.Erasure? && StoreResidue.AllShrink(sts)
    ensures AllFit(r, sts)
  {
    forall i | 0 <= i < |sts| ensures Fits(r, sts[i]) {
      assert StoreResidue.Shrinks(sts[i]);
    }
  }

  lemma {:induction false} EveryStatementFits(h: seq<World>, w: World, r: Request)
    requires Effect(h, w, r).Some?
    ensures AllFit(r, Batched(h, w, r))
  {
    match r
    case Life(life) => LifeFits(h, life);
    case Pipeline(pipeline) => PipelineFits(h, pipeline);
    case Erasure(e) =>
      ErasureShrinks(h, w, e);
      ShrinkFits(r, Batched(h, w, r));
  }

  // ------------------------------------------------- between states of a run

  /** Request `n` of the commit that made state `k + 1`. */
  ghost predicate CommittedAt(run: Run, k: nat, n: nat, r: Request) {
    k < |run.events| && run.events[k].Commit? && n < |run.events[k].requests| && run.events[k].requests[n] == r
  }

  lemma {:induction false} EffectsFirst(h: seq<World>, w: World, rs: seq<Request>, next: World) returns (mid: World)
    requires rs != [] && Effects(h, w, rs) == Some(next)
    ensures Effect(h, w, rs[0]) == Some(mid) && Effects(h, mid, rs[1..]) == Some(next)
  {
    mid := Effect(h, w, rs[0]).value;
  }
}
