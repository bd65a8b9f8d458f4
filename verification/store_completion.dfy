/** Exactly when finished work at the active revision left vectors. */
module StoreCompletion {

  import opened Wrappers
  import opened Succession
  import opened StoreTables
  import opened StoreRequests
  import opened StoreRuns
  import opened StoreSteps
  import opened StoreTheorems
  import StoreStaging
  import StoreInvariants
  import StoreEmbedding
  import StoreResidue
  import StoreOperations
  import StoreDerivatives
  import StoreErasing
  import StoreWorld
  import StoreCoverage

  // --------------------------------------------------------- one statement

  predicate Inserts(st: Statement, m: MemoryId, rev: Revision) {
    st.OnDetails? && st.detail.InsertVector? && st.detail.piece.memory == m && st.detail.piece.revision == rev
  }

  predicate Completes(st: Statement, key: WorkKey) {
    st == OnDetails(CompleteWork(key))
  }

  predicate Finished(db: Db, key: WorkKey) {
    key in db.details.work && db.details.work[key] == Done
  }

  lemma {:induction false} BareStep(db: Db, st: Statement, m: MemoryId, rev: Revision)
    requires !HasVector(db, m, rev) && !Inserts(st, m, rev) && Exec(db, st).Ran?
    ensures !HasVector(Exec(db, st).db, m, rev)
  {
    forall p | p in Exec(db, st).db.details.vectors ensures !(p.memory == m && p.revision == rev) {
      assert p in db.details.vectors || Inserts(st, p.memory, p.revision);
    }
  }

  lemma {:induction false} BareAll(db: Db, sts: seq<Statement>, m: MemoryId, rev: Revision)
    requires !HasVector(db, m, rev) && ExecAll(db, sts).Ran? && forall i | 0 <= i < |sts| :: !Inserts(sts[i], m, rev)
    ensures !HasVector(ExecAll(db, sts).db, m, rev)
    decreases |sts|
  {
    if sts != [] {
      assert !Inserts(sts[0], m, rev);
      BareStep(db, sts[0], m, rev);
      assert forall i | 0 <= i < |sts[1..]| :: sts[1..][i] == sts[i + 1];
      BareAll(Exec(db, sts[0]).db, sts[1..], m, rev);
    }
  }

  lemma {:induction false} UnfinishedStep(db: Db, st: Statement, key: WorkKey)
    requires !Finished(db, key) && !Completes(st, key) && Exec(db, st).Ran?
    ensures !Finished(Exec(db, st).db, key)
  {
  }

  lemma {:induction false} UnfinishedAll(db: Db, sts: seq<Statement>, key: WorkKey)
    requires !Finished(db, key) && ExecAll(db, sts).Ran? && forall i | 0 <= i < |sts| :: !Completes(sts[i], key)
    ensures !Finished(ExecAll(db, sts).db, key)
    decreases |sts|
  {
    if sts != [] {
      assert !Completes(sts[0], key);
      UnfinishedStep(db, sts[0], key);
      assert forall i | 0 <= i < |sts[1..]| :: sts[1..][i] == sts[i + 1];
      UnfinishedAll(Exec(db, sts[0]).db, sts[1..], key);
    }
  }

  // ------------------------------------------------------------ one request

  lemma {:induction false} EffectBare(h: seq<World>, w: World, r: Request, next: World, m: MemoryId, rev: Revision)
    requires Effect(h, w, r) == Some(next) && !Embeds(r, m, rev) && !HasVector(w.db, m, rev)
    ensures !HasVector(next.db, m, rev)
  {
    EffectRuns(h, w, r, next);
    EveryStatementFits(h, w, r);
    FittingInserts(r, Batched(h, w, r), m, rev);
    BareAll(w.db, Batched(h, w, r), m, rev);
  }

  lemma {:induction false} FittingInserts(r: Request, sts: seq<Statement>, m: MemoryId, rev: Revision)
    requires AllFit(r, sts) && !Embeds(r, m, rev)
    ensures forall i | 0 <= i < |sts| :: !Inserts(sts[i], m, rev)
  {
    forall i | 0 <= i < |sts| ensures !Inserts(sts[i], m, rev) {
      assert Fits(r, sts[i]);
    }
  }

  lemma {:induction false} FittingCompletes(r: Request, sts: seq<Statement>, key: WorkKey)
    requires AllFit(r, sts) && !Finishes(r, key)
    ensures forall i | 0 <= i < |sts| :: !Completes(sts[i], key)
  {
    forall i | 0 <= i < |sts| ensures !Completes(sts[i], key) {
      assert Fits(r, sts[i]);
    }
  }

  lemma {:induction false} EffectUnfinished(h: seq<World>, w: World, r: Request, next: World, key: WorkKey)
    requires Effect(h, w, r) == Some(next) && !Finishes(r, key) && !Finished(w.db, key)
    ensures !Finished(next.db, key)
  {
    EffectRuns(h, w, r, next);
    EveryStatementFits(h, w, r);
    FittingCompletes(r, Batched(h, w, r), key);
    UnfinishedAll(w.db, Batched(h, w, r), key);
  }

  lemma {:induction false} AdditiveKeeps(db: Db, sts: seq<Statement>, m: MemoryId, rev: Revision)
    requires StoreEmbedding.Additive(sts) && ExecAll(db, sts).Ran? && HasVector(db, m, rev)
    ensures HasVector(ExecAll(db, sts).db, m, rev)
  {
    StoreEmbedding.AdditiveAll(db, sts);
    var p :| p in db.details.vectors && p.memory == m && p.revision == rev;
    assert p in ExecAll(db, sts).db.details.vectors;
  }

  lemma {:induction false} WorkerVectors(db: Db, work: WorkKey, identity: Identity, count: nat, m: MemoryId, rev: Revision)
    requires count > 0 && ExecAll(db, StoreStaging.VectorStatements(work, identity, count)).Ran?
    ensures IsActive(db, work.revision)
    ensures HasVector(db, m, rev) || (work.memory == m && work.revision == rev)
      ==> HasVector(ExecAll(db, StoreStaging.VectorStatements(work, identity, count)).db, m, rev)
  {
    var end := ExecAll(db, StoreStaging.VectorStatements(work, identity, count)).db;
    StoreDerivatives.WorkerReplaces(db, work, identity, count);
    if work.memory == m && work.revision == rev {
      var first := Piece(m, rev, 0);
      assert first in StoreDerivatives.Pieces(m, rev, 0, count);
      assert first in end.details.vectors;
    } else if HasVector(db, m, rev) {
      var p :| p in db.details.vectors && p.memory == m && p.revision == rev;
      assert p in end.details.vectors;
    }
  }

  lemma {:induction false} DropVectorsKept(db: Db, dropped: Revision, m: MemoryId, rev: Revision)
    requires ExecAll(db, StoreStaging.DropStatements(dropped)).Ran? && HasVector(db, m, rev) && IsActive(db, rev)
    ensures HasVector(ExecAll(db, StoreStaging.DropStatements(dropped)).db, m, rev)
  {
    StoreDerivatives.DropRuns(db, dropped);
    if dropped != rev {
      var p :| p in db.details.vectors && p.memory == m && p.revision == rev;
      assert p in ExecAll(db, StoreStaging.DropStatements(dropped)).db.details.vectors;
    }
  }

  lemma {:induction false} PipelineKeepsVectors(h: seq<World>, db: Db, r: PipelineRequest, m: MemoryId, rev: Revision)
    requires PipelineStaged(h, r).Some? && ExecAll(db, PipelineStaged(h, r).value).Ran?
    requires StoreInvariants.ActiveIsHighest(db) && HasVector(db, m, rev) && IsActive(db, rev)
    ensures HasVector(ExecAll(db, PipelineStaged(h, r).value).db, m, rev)
  {
    match r
    case Embedding(work, identity, pieces) => WorkerVectors(db, work, identity, pieces, m, rev);
    case Reembedding(missing, revision, modelId, after, limit) =>
      StoreDerivatives.ReembedFamiliar(Selected(h[missing].db, revision, after, limit), revision, modelId);
      AdditiveKeeps(db, PipelineStaged(h, r).value, m, rev);
    case Activating(revision, identity, now) => StoreDerivatives.ActivationRuns(db, revision, identity, now);
    case Dropping(dropped) => DropVectorsKept(db, dropped, m, rev);
    case _ => AdditiveKeeps(db, PipelineStaged(h, r).value, m, rev);
  }

  lemma {:induction false} ErasureKeepsVectors(h: seq<World>, w: World, e: ErasureRequest, next: World, m: MemoryId, rev: Revision)
    requires ErasureEffect(h, w, e) == Some(next) && HasVector(w.db, m, rev) && Present(next.db, m)
    ensures HasVector(next.db, m, rev)
  {
    ErasureRuns(h, w, e, next);
    if e.Erasing? || e.Draining? {
      var p := ErasurePlan(h, w, e);
      PlanSpares(w.db, p, m, rev);
    }
  }

  lemma {:induction false} PlanSpares(db: Db, p: StoreErasing.Plan, m: MemoryId, rev: Revision)
    requires StoreErasing.Proper(p) && ExecAll(db, StoreErasing.Built(p).statements).Ran?
    requires HasVector(db, m, rev) && Present(ExecAll(db, StoreErasing.Built(p).statements).db, m)
    ensures HasVector(ExecAll(db, StoreErasing.Built(p).statements).db, m, rev)
  {
    StoreErasing.BatchBuries(p);
    StoreErasing.BurySpares(db, StoreErasing.Built(p).statements, p.shells);
  }

  lemma {:induction false} EffectKeepsVectors(h: seq<World>, w: World, r: Request, next: World, m: MemoryId, rev: Revision)
    requires Past(h, w.db) && StoreOperations.Good(w.db) && Effect(h, w, r) == Some(next)
    requires HasVector(w.db, m, rev) && IsActive(w.db, rev) && Present(next.db, m)
    ensures HasVector(next.db, m, rev)
  {
    match r
    case Life(life) =>
      StoreCoverage.LifeAdds(h, w.db, life);
      AdditiveKeeps(w.db, LifeStaged(h, life).value, m, rev);
    case Pipeline(pipeline) => PipelineKeepsVectors(h, w.db, pipeline, m, rev);
    case Erasure(e) => ErasureKeepsVectors(h, w, e, next, m, rev);
  }

  lemma {:induction false} EffectEmbeds(h: seq<World>, w: World, r: Request, next: World, m: MemoryId, rev: Revision)
    requires Effect(h, w, r) == Some(next) && Embeds(r, m, rev)
    ensures HasVector(next.db, m, rev)
  {
    WorkerVectors(w.db, r.pipeline.work, r.pipeline.identity, r.pipeline.pieces, m, rev);
  }

  // -------------------------------------------------------- one transaction

  predicate SomeEmbeds(rs: seq<Request>, m: MemoryId, rev: Revision) {
    exists n :: 0 <= n < |rs| && Embeds(rs[n], m, rev)
  }

  predicate SomeFinishes(rs: seq<Request>, key: WorkKey) {
    exists n :: 0 <= n < |rs| && Finishes(rs[n], key)
  }

  lemma {:induction false} EffectsBare(h: seq<World>, w: World, rs: seq<Request>, next: World, m: MemoryId, rev: Revision)
    requires Effects(h, w, rs) == Some(next) && !SomeEmbeds(rs, m, rev) && !HasVector(w.db, m, rev)
    ensures !HasVector(next.db, m, rev)
    decreases |rs|
  {
    if rs != [] {
      var mid := EffectsFirst(h, w, rs, next);
      assert !Embeds(rs[0], m, rev);
      EffectBare(h, w, rs[0], mid, m, rev);
      assert forall n | 0 <= n < |rs[1..]| :: rs[1..][n] == rs[n + 1];
      EffectsBare(h, mid, rs[1..], next, m, rev);
    }
  }

  lemma {:induction false} EffectsUnfinished(h: seq<World>, w: World, rs: seq<Request>, next: World, key: WorkKey)
    requires Effects(h, w, rs) == Some(next) && !SomeFinishes(rs, key) && !Finished(w.db, key)
    ensures !Finished(next.db, key)
    decreases |rs|
  {
    if rs != [] {
      var mid := EffectsFirst(h, w, rs, next);
      assert !Finishes(rs[0], key);
      EffectUnfinished(h, w, rs[0], mid, key);
      assert forall n | 0 <= n < |rs[1..]| :: rs[1..][n] == rs[n + 1];
      EffectsUnfinished(h, mid, rs[1..], next, key);
    }
  }

  lemma {:induction false} FirstVectors(h: seq<World>, w: World, rs: seq<Request>, next: World, m: MemoryId, rev: Revision)
    returns (mid: World)
    requires History(h, w) && Fit(w) && rs != [] && Effects(h, w, rs) == Some(next)
    requires IsActive(w.db, rev) && IsActive(next.db, rev) && Present(next.db, m) && m in w.db.memory
    ensures History(h, mid) && Fit(mid) && Effects(h, mid, rs[1..]) == Some(next)
    ensures IsActive(mid.db, rev) && m in mid.db.memory
    ensures HasVector(w.db, m, rev) || Embeds(rs[0], m, rev) ==> HasVector(mid.db, m, rev)
  {
    mid := EffectsFirst(h, w, rs, next);
    EffectKeeps(h, w, rs[0], mid);
    HistoryFollows(h, w, mid);
    StoreCoverage.CoverCarries(h, w, mid, rs[1..], next, m, rev);
    EffectsKeep(h, mid, rs[1..], next);
    StoreEmbedding.PresentBetween(mid.db, next.db, m);
    HistoryIsPast(h, w);
    if Embeds(rs[0], m, rev) {
      EffectEmbeds(h, w, rs[0], mid, m, rev);
    } else if HasVector(w.db, m, rev) {
      EffectKeepsVectors(h, w, rs[0], mid, m, rev);
    }
  }

  lemma {:induction false} EffectsVectors(h: seq<World>, w: World, rs: seq<Request>, next: World, m: MemoryId, rev: Revision)
    requires History(h, w) && Fit(w) && Effects(h, w, rs) == Some(next)
    requires IsActive(w.db, rev) && IsActive(next.db, rev) && Present(next.db, m) && m in w.db.memory
    ensures HasVector(w.db, m, rev) || SomeEmbeds(rs, m, rev) ==> HasVector(next.db, m, rev)
    decreases |rs|
  {
    if rs != [] {
      var mid := FirstVectors(h, w, rs, next, m, rev);
      EffectsVectors(h, mid, rs[1..], next, m, rev);
      EmbedsFirstOrLater(rs, m, rev);
    }
  }

  lemma {:induction false} EmbedsFirstOrLater(rs: seq<Request>, m: MemoryId, rev: Revision)
    requires rs != []
    ensures SomeEmbeds(rs, m, rev) ==> Embeds(rs[0], m, rev) || SomeEmbeds(rs[1..], m, rev)
  {
    if SomeEmbeds(rs, m, rev) && !Embeds(rs[0], m, rev) {
      var n :| 0 <= n < |rs| && Embeds(rs[n], m, rev);
      assert rs[1..][n - 1] == rs[n];
    }
  }

  // ------------------------------------------------------------------- runs

  /** Before state `j` a worker committed vectors for the memory at the revision. */
  ghost predicate Embedded(run: Run, j: nat, m: MemoryId, rev: Revision) {
    exists k: nat, n: nat, r: Request {:trigger CommittedAt(run, k, n, r)} ::
      k < j && CommittedAt(run, k, n, r) && Embeds(r, m, rev)
  }

  /** Before state `j` a request finished the item. */
  ghost predicate FinishedBy(run: Run, j: nat, key: WorkKey) {
    exists k: nat, n: nat, r: Request {:trigger CommittedAt(run, k, n, r)} ::
      k < j && CommittedAt(run, k, n, r) && Finishes(r, key)
  }

  /** A worker completed the item without vectors because its number was active under
      another model. */
  ghost predicate Mistakes(run: Run, r: Request, key: WorkKey) {
    r.Pipeline? && r.pipeline.EmptyCompletion? && r.pipeline.moot == key
    && r.pipeline.looked < |run.worlds| && StoreDerivatives.Strange(run.worlds[r.pipeline.looked].db, key, r.pipeline.own)
  }

  ghost predicate Mistaken(run: Run, j: nat, key: WorkKey) {
    exists k: nat, n: nat, r: Request {:trigger CommittedAt(run, k, n, r)} ::
      k < j && CommittedAt(run, k, n, r) && Mistakes(run, r, key)
  }

  lemma {:induction false} StepBare(h: seq<World>, last: World, e: Event, w: World, m: MemoryId, rev: Revision)
    requires h != [] && last == h[|h| - 1] && Next(h, e, w) && !HasVector(last.db, m, rev)
    requires e.Commit? ==> !SomeEmbeds(e.requests, m, rev)
    ensures !HasVector(w.db, m, rev)
  {
    if e.Commit? {
      EffectsBare(h, last, e.requests, w, m, rev);
    }
  }

  lemma {:induction false} BareUntilEmbedded(run: Run, j: nat, m: MemoryId, rev: Revision)
    requires IsRun(run) && j < |run.worlds| && !Embedded(run, j, m, rev)
    ensures !HasVector(Tables(run, j), m, rev)
    decreases j
  {
    if j > 0 {
      BareUntilEmbedded(run, j - 1, m, rev);
      var e := run.events[j - 1];
      if e.Commit? {
        forall n | 0 <= n < |e.requests| ensures !Embeds(e.requests[n], m, rev) {
          assert CommittedAt(run, j - 1, n, e.requests[n]);
        }
      }
      Cut(run, j);
      StepBare(run.worlds[..j], run.worlds[j - 1], e, run.worlds[j], m, rev);
    }
  }

  lemma {:induction false} StepUnfinished(h: seq<World>, last: World, e: Event, w: World, key: WorkKey)
    requires h != [] && last == h[|h| - 1] && Next(h, e, w) && !Finished(last.db, key)
    requires e.Commit? ==> !SomeFinishes(e.requests, key)
    ensures !Finished(w.db, key)
  {
    if e.Commit? {
      EffectsUnfinished(h, last, e.requests, w, key);
    }
  }

  lemma {:induction false} UnfinishedUntil(run: Run, j: nat, key: WorkKey)
    requires IsRun(run) && j < |run.worlds| && !FinishedBy(run, j, key)
    ensures !Finished(Tables(run, j), key)
    decreases j
  {
    if j > 0 {
      UnfinishedUntil(run, j - 1, key);
      var e := run.events[j - 1];
      if e.Commit? {
        forall n | 0 <= n < |e.requests| ensures !Finishes(e.requests[n], key) {
          assert CommittedAt(run, j - 1, n, e.requests[n]);
        }
      }
      Cut(run, j);
      StepUnfinished(run.worlds[..j], run.worlds[j - 1], e, run.worlds[j], key);
    }
  }

  lemma {:induction false} StepVectors(h: seq<World>, last: World, e: Event, w: World, m: MemoryId, rev: Revision)
    requires h != [] && last == h[|h| - 1] && Fit(last) && History(h, last) && Next(h, e, w)
    requires IsActive(last.db, rev) && IsActive(w.db, rev) && Present(w.db, m) && m in last.db.memory
    ensures HasVector(last.db, m, rev) ==> HasVector(w.db, m, rev)
    ensures e.Commit? && SomeEmbeds(e.requests, m, rev) ==> HasVector(w.db, m, rev)
  {
    if e.Commit? {
      EffectsVectors(h, last, e.requests, w, m, rev);
    }
  }

  lemma {:induction false} VectorsOn(run: Run, j: nat, last: World, w: World, m: MemoryId, rev: Revision)
    requires IsRun(run) && 0 < j < |run.worlds| && last == run.worlds[j - 1] && w == run.worlds[j]
    requires IsActive(last.db, rev) && IsActive(w.db, rev) && Present(w.db, m) && m in last.db.memory
    ensures HasVector(last.db, m, rev) ==> HasVector(w.db, m, rev)
    ensures run.events[j - 1].Commit? && SomeEmbeds(run.events[j - 1].requests, m, rev) ==> HasVector(w.db, m, rev)
  {
    StepWithin(run, j, run.worlds[..j], last, run.events[j - 1], w);
    StepVectors(run.worlds[..j], last, run.events[j - 1], w, m, rev);
  }

  /** While a revision stays active and a memory is there, its vectors stay. */
  lemma {:induction false} VectorsLast(run: Run, i: nat, j: nat, m: MemoryId, rev: Revision)
    requires IsRun(run) && i <= j < |run.worlds|
    requires IsActive(Tables(run, i), rev) && IsActive(Tables(run, j), rev) && Present(Tables(run, j), m)
    requires m in Tables(run, i).memory && HasVector(Tables(run, i), m, rev)
    ensures HasVector(Tables(run, j), m, rev)
    decreases j
  {
    if i < j {
      ActiveThroughout(run, i, j - 1, j, rev);
      StoreCoverage.StaysRecorded(run, i, j - 1, m);
      PresentThroughout(run, j - 1, j, m);
      VectorsLast(run, i, j - 1, m, rev);
      VectorsOn(run, j, run.worlds[j - 1], run.worlds[j], m, rev);
    }
  }

  /** A worker's commit is alone in its transaction. */
  lemma {:induction false} EmbedsAlone(h: seq<World>, last: World, rs: seq<Request>, n: nat, w: World, m: MemoryId, rev: Revision)
    requires h != [] && last == h[|h| - 1] && Next(h, Commit(rs), w) && n < |rs| && Embeds(rs[n], m, rev)
    ensures IsActive(last.db, rev) && HasVector(w.db, m, rev) && w.db.models == last.db.models
  {
    assert !Composes(rs[n]);
    assert rs == [rs[0]] && rs[n] == rs[0];
    OneEffect(h, last, rs[0], w);
    EffectEmbeds(h, last, rs[0], w, m, rev);
    StoreDerivatives.WorkerReplaces(last.db, rs[0].pipeline.work, rs[0].pipeline.identity, rs[0].pipeline.pieces);
  }

  lemma {:induction false} EmbeddedLasts(run: Run, j: nat, m: MemoryId, rev: Revision)
    requires IsRun(run) && j < |run.worlds| && Embedded(run, j, m, rev)
    requires IsActive(Tables(run, j), rev) && Present(Tables(run, j), m)
    ensures HasVector(Tables(run, j), m, rev)
  {
    var k: nat, n: nat, r: Request :| k < j && CommittedAt(run, k, n, r) && Embeds(r, m, rev);
    EmbeddedAt(run, k, n, r, run.worlds[k + 1], m, rev);
    VectorHolder(run, k + 1, m, rev);
    VectorsLast(run, k + 1, j, m, rev);
  }

  lemma {:induction false} EmbeddedAt(run: Run, k: nat, n: nat, r: Request, w: World, m: MemoryId, rev: Revision)
    requires IsRun(run) && k + 1 < |run.worlds| && CommittedAt(run, k, n, r) && Embeds(r, m, rev) && w == run.worlds[k + 1]
    ensures IsActive(w.db, rev) && HasVector(w.db, m, rev)
  {
    Cut(run, k + 1);
    EmbedsAlone(run.worlds[..k + 1], run.worlds[k], run.events[k].requests, n, w, m, rev);
  }

  lemma {:induction false} VectorHolder(run: Run, i: nat, m: MemoryId, rev: Revision)
    requires IsRun(run) && i < |run.worlds| && HasVector(Tables(run, i), m, rev)
    ensures m in Tables(run, i).memory
  {
    RunKeeps(run, i);
    ResidueVectors(Tables(run, i), m, rev);
  }

  lemma {:induction false} ResidueVectors(db: Db, m: MemoryId, rev: Revision)
    requires StoreResidue.NoResidue(db) && HasVector(db, m, rev)
    ensures Present(db, m)
  {
  }

  /** A memory that is there has vectors at the active revision if and only if a worker
      committed some for it. */
  lemma {:induction false} VectorsAreEmbedded(run: Run, j: nat, m: MemoryId, rev: Revision)
    requires IsRun(run) && j < |run.worlds| && IsActive(Tables(run, j), rev) && Present(Tables(run, j), m)
    ensures HasVector(Tables(run, j), m, rev) <==> Embedded(run, j, m, rev)
  {
    if Embedded(run, j, m, rev) {
      EmbeddedLasts(run, j, m, rev);
    } else {
      BareUntilEmbedded(run, j, m, rev);
    }
  }

  lemma {:induction false} StagedEmpty(h: seq<World>, last: World, rs: seq<Request>, n: nat, w: World)
    requires h != [] && last == h[|h| - 1] && Next(h, Commit(rs), w) && n < |rs| && rs[n].Pipeline? && rs[n].pipeline.EmptyCompletion?
    ensures PipelineStaged(h, rs[n].pipeline).Some?
  {
    assert !Composes(rs[n]);
    assert rs == [rs[0]] && rs[n] == rs[0];
    OneEffect(h, last, rs[0], w);
  }

  /** An item finished without vectors is for an erased memory or an overtaken revision,
      unless the worker's number was active under another model. */
  lemma {:induction false} EmptyIsMoot(run: Run, k: nat, n: nat, r: Request, j: nat, key: WorkKey)
    requires IsRun(run) && k < j < |run.worlds| && CommittedAt(run, k, n, r)
    requires r.Pipeline? && r.pipeline.EmptyCompletion? && r.pipeline.moot == key && !Mistakes(run, r, key)
    ensures !(Present(Tables(run, j), key.memory) && IsActive(Tables(run, j), key.revision))
  {
    var p := r.pipeline;
    EmptyReads(run, k, n, p, run.events[k].requests, run.worlds[k + 1]);
    MootInRun(run, p.claimed, p.looked, j, key, p.own);
  }

  /** What the readings of a completion without vectors showed. */
  lemma {:induction false} EmptyReads(run: Run, k: nat, n: nat, p: PipelineRequest, rs: seq<Request>, w: World)
    requires IsRun(run) && k + 1 < |run.worlds| && w == run.worlds[k + 1] && run.events[k] == Commit(rs)
    requires n < |rs| && rs[n] == Pipeline(p) && p.EmptyCompletion?
    ensures p.begun <= p.claimed <= p.looked <= k && p.moot in run.worlds[p.claimed].db.details.work
    ensures StoreDerivatives.MayDrain(run.worlds[p.begun].db, p.moot.revision, p.own)
    ensures StoreDerivatives.CompletesEmpty(run.worlds[p.looked].db, p.moot, p.own)
  {
    var h := run.worlds[..k + 1];
    Cut(run, k + 1);
    StagedEmpty(h, run.worlds[k], rs, n, w);
    assert h[p.begun] == run.worlds[p.begun] && h[p.claimed] == run.worlds[p.claimed] && h[p.looked] == run.worlds[p.looked];
  }

  lemma {:induction false} MootInRun(run: Run, claimed: nat, looked: nat, j: nat, key: WorkKey, own: Identity)
    requires IsRun(run) && claimed <= looked <= j < |run.worlds| && key in Tables(run, claimed).details.work
    requires StoreDerivatives.CompletesEmpty(Tables(run, looked), key, own)
    requires !StoreDerivatives.Strange(Tables(run, looked), key, own)
    ensures !(Present(Tables(run, j), key.memory) && IsActive(Tables(run, j), key.revision))
  {
    StatesFollow(run, claimed, looked);
    StatesFollow(run, looked, j);
    StoreDerivatives.MootStaysMoot(Tables(run, claimed), Tables(run, looked), Tables(run, j), key, own);
  }

  /** What finished an item that is still of use: a worker that embedded it, or one that
      mistook the active model. */
  lemma {:induction false} FinishedHow(run: Run, j: nat, key: WorkKey)
    requires IsRun(run) && j < |run.worlds| && FinishedBy(run, j, key)
    requires IsActive(Tables(run, j), key.revision) && Present(Tables(run, j), key.memory)
    ensures Embedded(run, j, key.memory, key.revision) || Mistaken(run, j, key)
  {
    var k: nat, n: nat, r: Request :| k < j && CommittedAt(run, k, n, r) && Finishes(r, key);
    if r.pipeline.Embedding? {
      assert Embeds(r, key.memory, key.revision);
    } else if !Mistakes(run, r, key) {
      EmptyIsMoot(run, k, n, r, j, key);
    }
  }

  /** Finished work at the active revision is for a memory that is there, and it left no
      vectors if and only if a worker finished it whose number was active under another
      model, and no worker has embedded the memory at that revision. */
  lemma {:induction false} FinishedIsBareIff(run: Run, j: nat, key: WorkKey)
    requires IsRun(run) && j < |run.worlds| && Finished(Tables(run, j), key) && IsActive(Tables(run, j), key.revision)
    ensures Present(Tables(run, j), key.memory)
    ensures !HasVector(Tables(run, j), key.memory, key.revision)
       <==> Mistaken(run, j, key) && !Embedded(run, j, key.memory, key.revision)
  {
    RunKeeps(run, j);
    WorkHolder(Tables(run, j), key);
    if !FinishedBy(run, j, key) {
      UnfinishedUntil(run, j, key);
    }
    FinishedHow(run, j, key);
    VectorsAreEmbedded(run, j, key.memory, key.revision);
  }

  lemma {:induction false} WorkHolder(db: Db, key: WorkKey)
    requires StoreResidue.NoResidue(db) && key in db.details.work
    ensures Present(db, key.memory)
  {
  }

  /** Every worker that completes an item without vectors began when a model was recorded
      under its number. */
  ghost predicate WorkersBound(run: Run) {
    forall k: nat, n: nat, r: Request {:trigger CommittedAt(run, k, n, r)} ::
      CommittedAt(run, k, n, r) && r.Pipeline? && r.pipeline.EmptyCompletion? && r.pipeline.begun < |run.worlds|
      ==> r.pipeline.moot.revision in run.worlds[r.pipeline.begun].db.models
  }

  /** Such a worker is never mistaken, so what is finished is embedded. */
  lemma {:induction false} CompletedIsEmbedded(run: Run, j: nat, key: WorkKey)
    requires IsRun(run) && WorkersBound(run) && j < |run.worlds|
    requires Finished(Tables(run, j), key) && IsActive(Tables(run, j), key.revision)
    ensures Present(Tables(run, j), key.memory) && HasVector(Tables(run, j), key.memory, key.revision)
  {
    FinishedIsBareIff(run, j, key);
    if Mistaken(run, j, key) {
      var k: nat, n: nat, r: Request :| k < j && CommittedAt(run, k, n, r) && Mistakes(run, r, key);
      MistakenUnbound(run, k, n, r, key);
    }
  }

  lemma {:induction false} MistakenUnbound(run: Run, k: nat, n: nat, r: Request, key: WorkKey)
    requires IsRun(run) && k + 1 < |run.worlds| && CommittedAt(run, k, n, r) && Mistakes(run, r, key)
    ensures r.pipeline.begun < |run.worlds| && key.revision !in run.worlds[r.pipeline.begun].db.models
  {
    var p := r.pipeline;
    EmptyReads(run, k, n, p, run.events[k].requests, run.worlds[k + 1]);
    StatesFollow(run, p.begun, p.looked);
    StoreDerivatives.StrangeWasUnrecorded(Tables(run, p.begun), Tables(run, p.looked), key, p.own);
  }
}
