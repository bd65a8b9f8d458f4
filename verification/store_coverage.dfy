/** Exactly when a live memory lacks embedding work after a finished pass. */
module StoreCoverage {

  import opened Wrappers
  import opened Succession
  import opened StoreTables
  import opened StoreStaging
  import opened StoreEmbedding
  import opened StoreRequests
  import opened StoreRuns
  import opened StoreSteps
  import opened StoreTheorems
  import StoreResidue
  import StoreOperations
  import StoreDerivatives
  import StoreInvariants

  // --------------------------------------------------------- one statement

  /** A statement that gives a memory work or a vector at a revision. */
  predicate Gives(st: Statement, m: MemoryId, rev: Revision) {
    st.OnDetails? &&
      match st.detail
      case StageWork(work) => work.memory == m && work.revision == rev
      case InsertVector(piece) => piece.memory == m && piece.revision == rev
      case _ => false
  }

  ghost predicate Stages(sts: seq<Statement>, m: MemoryId, rev: Revision) {
    exists i :: 0 <= i < |sts| && Gives(sts[i], m, rev)
  }

  lemma {:induction false} UncoveredStep(db: Db, st: Statement, m: MemoryId, rev: Revision)
    requires !Covered(db, m, rev) && !Gives(st, m, rev) && Exec(db, st).Ran?
    ensures !Covered(Exec(db, st).db, m, rev)
  {
    var end := Exec(db, st).db;
    if st.OnDetails? {
      UncoveredDetail(db, st.detail, m, rev);
    }
    forall p | p in end.details.vectors ensures !(p.memory == m && p.revision == rev) {
      if p in db.details.vectors {
        assert p.memory == m && p.revision == rev ==> HasVector(db, m, rev);
      }
    }
    forall k | k in end.details.work ensures !(k.memory == m && k.revision == rev) {
      if k in db.details.work {
        assert k.memory == m && k.revision == rev ==> HasWork(db, m, rev);
      }
    }
  }

  lemma {:induction false} UncoveredDetail(db: Db, d: DetailStatement, m: MemoryId, rev: Revision)
    requires !Gives(OnDetails(d), m, rev) && WriteDetail(db, d).Wrote?
    ensures forall p | p in WriteDetail(db, d).table.vectors && p !in db.details.vectors :: !(p.memory == m && p.revision == rev)
    ensures forall k | k in WriteDetail(db, d).table.work && k !in db.details.work :: !(k.memory == m && k.revision == rev)
  {
  }

  lemma {:induction false} UncoveredAll(db: Db, sts: seq<Statement>, m: MemoryId, rev: Revision)
    requires !Covered(db, m, rev) && !Stages(sts, m, rev) && ExecAll(db, sts).Ran?
    ensures !Covered(ExecAll(db, sts).db, m, rev)
    decreases |sts|
  {
    if sts != [] {
      assert !Gives(sts[0], m, rev);
      UncoveredStep(db, sts[0], m, rev);
      forall i | 0 <= i < |sts[1..]| ensures !Gives(sts[1..][i], m, rev) {
        assert sts[1..][i] == sts[i + 1];
      }
      UncoveredAll(Exec(db, sts[0]).db, sts[1..], m, rev);
    }
  }

  lemma {:induction false} AdditiveCovers(db: Db, sts: seq<Statement>, m: MemoryId, rev: Revision)
    requires Additive(sts) && Stages(sts, m, rev) && ExecAll(db, sts).Ran?
    ensures Covered(ExecAll(db, sts).db, m, rev)
  {
    AdditiveAll(db, sts);
    var i :| 0 <= i < |sts| && Gives(sts[i], m, rev);
    assert sts[i] in sts;
    var end := ExecAll(db, sts).db;
    if sts[i].detail.StageWork? {
      assert sts[i].detail.work in end.details.work;
    } else {
      assert sts[i].detail.piece in end.details.vectors;
    }
  }

  // ------------------------------------------------------------ one request

  /** The list a request staged gives the memory work or vectors at the revision. */
  ghost predicate StagesFor(h: seq<World>, r: Request, m: MemoryId, rev: Revision) {
    match r
    case Life(life) => LifeStaged(h, life).Some? && Stages(LifeStaged(h, life).value, m, rev)
    case Pipeline(pipeline) => PipelineStaged(h, pipeline).Some? && Stages(PipelineStaged(h, pipeline).value, m, rev)
    case Erasure(_) => false
  }

  lemma {:induction false} ShrinkGivesNothing(sts: seq<Statement>, m: MemoryId, rev: Revision)
    requires StoreResidue.AllShrink(sts)
    ensures !Stages(sts, m, rev)
  {
    forall i | 0 <= i < |sts| ensures !Gives(sts[i], m, rev) {
      assert StoreResidue.Shrinks(sts[i]);
    }
  }

  lemma {:induction false} EffectUncovered(h: seq<World>, w: World, r: Request, next: World, m: MemoryId, rev: Revision)
    requires Effect(h, w, r) == Some(next) && !StagesFor(h, r, m, rev) && !Covered(w.db, m, rev)
    ensures !Covered(next.db, m, rev)
  {
    EffectRuns(h, w, r, next);
    if r.Erasure? {
      ErasureShrinks(h, w, r.erasure);
      ShrinkGivesNothing(Batched(h, w, r), m, rev);
    }
    UncoveredAll(w.db, Batched(h, w, r), m, rev);
  }

  lemma {:induction false} SteadyIsAdditive(db: Db, sts: seq<Statement>, ids: set<MemoryId>)
    requires StoreOperations.AllSteady(db, sts, ids)
    ensures Additive(sts)
  {
    forall i | 0 <= i < |sts| ensures !Removes(sts[i]) && !sts[i].OnRegistry? {
      assert StoreOperations.Steady(db, sts[i], ids);
    }
  }

  lemma {:induction false} InsertAdds(observed: Db, c: Candidate, key: Option<KeyId>)
    ensures Additive(InsertStatements(observed, c, key))
  {
    var rest := StoreOperations.InsertRest(observed, c, key);
    StoreOperations.InsertSplits(observed, c, key);
    StoreOperations.InsertSteady(observed, observed, c, key);
    SteadyIsAdditive(observed, rest, {c.id});
    var sts := InsertStatements(observed, c, key);
    forall i | 0 <= i < |sts| ensures !Removes(sts[i]) && !sts[i].OnRegistry? {
      assert i > 0 ==> sts[i] == rest[i - 1];
    }
  }

  lemma {:induction false} MergeAdds(observed: Db, id: MemoryId, expected: Record, c: Candidate, key: Option<KeyId>)
    ensures Additive(MergeStatements(observed, id, expected, c, key))
  {
  }

  lemma {:induction false} CaptureAdds(h: seq<World>, r: LifeRequest)
    requires r.Capture? && LifeStaged(h, r).Some?
    ensures Additive(LifeStaged(h, r).value)
  {
    match Holder(h[r.holder].db, FingerprintOf(r.candidate.kind, r.candidate.content))
    case None => InsertAdds(h[r.observed].db, r.candidate, r.key);
    case Some(id) => MergeAdds(h[r.observed].db, id, h[r.found].db.memory[id].record, r.candidate, r.key);
  }

  lemma {:induction false} LifeAdds(h: seq<World>, db: Db, r: LifeRequest)
    requires Past(h, db) && LifeStaged(h, r).Some?
    ensures Additive(LifeStaged(h, r).value)
  {
    if r.Capture? {
      CaptureAdds(h, r);
    } else {
      LifeSteady(h, db, r);
      SteadyIsAdditive(db, LifeStaged(h, r).value, {});
    }
  }

  lemma {:induction false} PieceGiven(id: MemoryId, rev: Revision, ordinal: nat, count: nat, m: MemoryId, other: Revision)
    requires Stages(PieceStatements(id, rev, ordinal, count), m, other)
    ensures id == m && rev == other && count > 0
    decreases count
  {
    var sts := PieceStatements(id, rev, ordinal, count);
    var i :| 0 <= i < |sts| && Gives(sts[i], m, other);
    if i >= 2 {
      assert sts[i] == PieceStatements(id, rev, ordinal + 1, count - 1)[i - 2];
      PieceGiven(id, rev, ordinal + 1, count - 1, m, other);
    }
  }

  lemma {:induction false} WorkerGives(work: WorkKey, identity: Identity, count: nat, m: MemoryId, rev: Revision)
    requires Stages(VectorStatements(work, identity, count), m, rev)
    ensures work.memory == m && work.revision == rev && count > 0
  {
    var sts := VectorStatements(work, identity, count);
    var pieces := PieceStatements(work.memory, work.revision, 0, count);
    var i :| 0 <= i < |sts| && Gives(sts[i], m, rev);
    assert 4 <= i < 4 + |pieces| && sts[i] == pieces[i - 4];
    PieceGiven(work.memory, work.revision, 0, count, m, rev);
  }

  lemma {:induction false} WorkerCovers(db: Db, work: WorkKey, identity: Identity, count: nat)
    requires count > 0 && ExecAll(db, VectorStatements(work, identity, count)).Ran?
    ensures Covered(ExecAll(db, VectorStatements(work, identity, count)).db, work.memory, work.revision)
  {
    StoreDerivatives.WorkerReplaces(db, work, identity, count);
    var piece := Piece(work.memory, work.revision, 0);
    assert piece in StoreDerivatives.Pieces(work.memory, work.revision, 0, count);
    assert piece in ExecAll(db, VectorStatements(work, identity, count)).db.details.vectors;
  }

  lemma {:induction false} PipelineCovers(h: seq<World>, db: Db, r: PipelineRequest, m: MemoryId, rev: Revision)
    requires PipelineStaged(h, r).Some? && ExecAll(db, PipelineStaged(h, r).value).Ran?
    requires Stages(PipelineStaged(h, r).value, m, rev)
    ensures Covered(ExecAll(db, PipelineStaged(h, r).value).db, m, rev)
  {
    match r
    case Embedding(work, identity, pieces) =>
      WorkerGives(work, identity, pieces, m, rev);
      WorkerCovers(db, work, identity, pieces);
    case Reembedding(missing, revision, modelId, after, limit) =>
      StoreDerivatives.ReembedFamiliar(Selected(h[missing].db, revision, after, limit), revision, modelId);
      AdditiveCovers(db, PipelineStaged(h, r).value, m, rev);
    case _ =>
  }

  lemma {:induction false} EffectCovers(h: seq<World>, w: World, r: Request, next: World, m: MemoryId, rev: Revision)
    requires History(h, w) && Fit(w) && Effect(h, w, r) == Some(next) && StagesFor(h, r, m, rev)
    ensures Covered(next.db, m, rev)
  {
    match r
    case Life(life) =>
      HistoryIsPast(h, w);
      LifeAdds(h, w.db, life);
      AdditiveCovers(w.db, LifeStaged(h, life).value, m, rev);
    case Pipeline(pipeline) => PipelineCovers(h, w.db, pipeline, m, rev);
  }

  // -------------------------------------------------------- one transaction

  ghost predicate SomeStages(h: seq<World>, rs: seq<Request>, m: MemoryId, rev: Revision) {
    exists n :: 0 <= n < |rs| && StagesFor(h, rs[n], m, rev)
  }

  lemma {:induction false} EffectsUncovered(h: seq<World>, w: World, rs: seq<Request>, next: World, m: MemoryId, rev: Revision)
    requires Effects(h, w, rs) == Some(next) && !SomeStages(h, rs, m, rev) && !Covered(w.db, m, rev)
    ensures !Covered(next.db, m, rev)
    decreases |rs|
  {
    if rs != [] {
      var mid := EffectsFirst(h, w, rs, next);
      EffectUncovered(h, w, rs[0], mid, m, rev);
      forall n | 0 <= n < |rs[1..]| ensures !StagesFor(h, rs[1..][n], m, rev) {
        assert rs[1..][n] == rs[n + 1];
      }
      EffectsUncovered(h, mid, rs[1..], next, m, rev);
    }
  }

  /** What one request of a transaction covers is covered where the transaction ends. */
  lemma {:induction false} CoverCarries(h: seq<World>, w: World, mid: World, rs: seq<Request>, next: World, m: MemoryId, rev: Revision)
    requires History(h, mid) && Fit(mid) && Follows(w, mid) && Effects(h, mid, rs) == Some(next)
    requires IsActive(w.db, rev) && IsActive(next.db, rev) && Present(next.db, m)
    ensures IsActive(mid.db, rev) && (Covered(mid.db, m, rev) ==> Covered(next.db, m, rev))
  {
    EffectsKeep(h, mid, rs, next);
    ActiveBetween(w.db, mid.db, next.db, rev);
  }

  lemma {:induction false} FirstCovers(h: seq<World>, w: World, rs: seq<Request>, next: World, m: MemoryId, rev: Revision)
    returns (mid: World)
    requires History(h, w) && Fit(w) && rs != [] && Effects(h, w, rs) == Some(next)
    requires IsActive(w.db, rev) && IsActive(next.db, rev) && Present(next.db, m)
    ensures History(h, mid) && Fit(mid) && Effects(h, mid, rs[1..]) == Some(next) && IsActive(mid.db, rev)
    ensures StagesFor(h, rs[0], m, rev) ==> Covered(next.db, m, rev)
  {
    mid := EffectsFirst(h, w, rs, next);
    EffectKeeps(h, w, rs[0], mid);
    HistoryFollows(h, w, mid);
    CoverCarries(h, w, mid, rs[1..], next, m, rev);
    if StagesFor(h, rs[0], m, rev) {
      EffectCovers(h, w, rs[0], mid, m, rev);
    }
  }

  lemma {:induction false} EffectsCover(h: seq<World>, w: World, rs: seq<Request>, next: World, m: MemoryId, rev: Revision)
    requires History(h, w) && Fit(w) && Effects(h, w, rs) == Some(next) && SomeStages(h, rs, m, rev)
    requires IsActive(w.db, rev) && IsActive(next.db, rev) && Present(next.db, m)
    ensures Covered(next.db, m, rev)
    decreases |rs|
  {
    var mid := FirstCovers(h, w, rs, next, m, rev);
    if !StagesFor(h, rs[0], m, rev) {
      LaterStages(h, rs, m, rev);
      EffectsCover(h, mid, rs[1..], next, m, rev);
    }
  }

  lemma {:induction false} LaterStages(h: seq<World>, rs: seq<Request>, m: MemoryId, rev: Revision)
    requires SomeStages(h, rs, m, rev) && !StagesFor(h, rs[0], m, rev)
    ensures SomeStages(h, rs[1..], m, rev)
  {
    var n :| 0 <= n < |rs| && StagesFor(h, rs[n], m, rev);
    assert rs[1..][n - 1] == rs[n];
  }

  // ------------------------------------------------- leaving quarantine

  predicate Releases(r: Request, m: MemoryId) {
    r.Life? && r.life.Supersession? && r.life.prior == m
  }

  predicate Supersedes(st: Statement, m: MemoryId) {
    st.OnRows? && st.row.Supersede? && st.row.id == m
  }

  lemma {:induction false} HeldStep(db: Db, st: Statement, m: MemoryId)
    requires m in db.memory && Exec(db, st).Ran?
    requires HeldBack(db, m) || !Present(db, m)
    ensures m in Exec(db, st).db.memory
    ensures Supersedes(st, m) || HeldBack(Exec(db, st).db, m) || !Present(Exec(db, st).db, m)
    ensures Supersedes(st, m) ==> Exec(db, st).db.memory[m].state == Superseded
  {
  }

  lemma {:induction false} HeldAll(db: Db, sts: seq<Statement>, m: MemoryId)
    requires m in db.memory && ExecAll(db, sts).Ran? && (HeldBack(db, m) || !Present(db, m))
    requires forall i | 0 <= i < |sts| :: !Supersedes(sts[i], m)
    ensures HeldBack(ExecAll(db, sts).db, m) || !Present(ExecAll(db, sts).db, m)
    decreases |sts|
  {
    if sts != [] {
      assert !Supersedes(sts[0], m);
      HeldStep(db, sts[0], m);
      assert forall i | 0 <= i < |sts[1..]| :: sts[1..][i] == sts[i + 1];
      HeldAll(Exec(db, sts[0]).db, sts[1..], m);
    }
  }

  lemma {:induction false} EffectHolds(h: seq<World>, w: World, r: Request, next: World, m: MemoryId)
    requires Effect(h, w, r) == Some(next) && !Releases(r, m)
    requires m in w.db.memory && (HeldBack(w.db, m) || !Present(w.db, m))
    ensures HeldBack(next.db, m) || !Present(next.db, m)
  {
    EffectRuns(h, w, r, next);
    EveryStatementFits(h, w, r);
    FittingSupersedes(r, Batched(h, w, r), m);
    HeldAll(w.db, Batched(h, w, r), m);
  }

  lemma {:induction false} FittingSupersedes(r: Request, sts: seq<Statement>, m: MemoryId)
    requires AllFit(r, sts) && !Releases(r, m)
    ensures forall i | 0 <= i < |sts| :: !Supersedes(sts[i], m)
  {
    forall i | 0 <= i < |sts| ensures !Supersedes(sts[i], m) {
      assert Fits(r, sts[i]);
    }
  }

  /** A supersession that commits moves the row out of quarantine and changes nothing
      that covers it. */
  lemma {:induction false} ReleaseFrees(h: seq<World>, w: World, r: Request, next: World, m: MemoryId)
    requires Effect(h, w, r) == Some(next) && Releases(r, m) && m in w.db.memory
    ensures m in next.db.memory && next.db.memory[m].state == Superseded && next.db.details == w.db.details
  {
    SupersessionMoves(r.life.walked, h[r.life.found].db, w.db, m, r.life.heir, r.life.at);
  }

  ghost predicate SomeReleases(rs: seq<Request>, m: MemoryId) {
    exists n :: 0 <= n < |rs| && Releases(rs[n], m)
  }

  lemma {:induction false} EffectsHold(h: seq<World>, w: World, rs: seq<Request>, next: World, m: MemoryId)
    requires History(h, w) && Fit(w) && Effects(h, w, rs) == Some(next) && !SomeReleases(rs, m)
    requires m in w.db.memory && (HeldBack(w.db, m) || !Present(w.db, m))
    ensures HeldBack(next.db, m) || !Present(next.db, m)
    decreases |rs|
  {
    if rs != [] {
      var mid := EffectsFirst(h, w, rs, next);
      EffectHolds(h, w, rs[0], mid, m);
      EffectKeeps(h, w, rs[0], mid);
      HistoryFollows(h, w, mid);
      forall n | 0 <= n < |rs[1..]| ensures !Releases(rs[1..][n], m) {
        assert rs[1..][n] == rs[n + 1];
      }
      EffectsHold(h, mid, rs[1..], next, m);
    }
  }

  lemma {:induction false} Loosened(a: Db, b: Db, m: MemoryId)
    requires StoreInvariants.Precedes(a, b) && m in a.memory && !HeldBack(a, m)
    ensures m in b.memory && !HeldBack(b, m)
  {
    assert StoreInvariants.RowPrecedes(a.memory[m], b.memory[m]);
  }

  lemma {:induction false} FirstFrees(h: seq<World>, w: World, rs: seq<Request>, next: World, m: MemoryId) returns (mid: World)
    requires History(h, w) && Fit(w) && rs != [] && Effects(h, w, rs) == Some(next) && m in w.db.memory
    ensures History(h, mid) && Fit(mid) && Effects(h, mid, rs[1..]) == Some(next) && m in mid.db.memory
    ensures Releases(rs[0], m) ==> m in next.db.memory && !HeldBack(next.db, m)
  {
    mid := EffectsFirst(h, w, rs, next);
    EffectKeeps(h, w, rs[0], mid);
    HistoryFollows(h, w, mid);
    if Releases(rs[0], m) {
      ReleaseFrees(h, w, rs[0], mid, m);
      EffectsKeep(h, mid, rs[1..], next);
      Loosened(mid.db, next.db, m);
    }
  }

  lemma {:induction false} EffectsFree(h: seq<World>, w: World, rs: seq<Request>, next: World, m: MemoryId)
    requires History(h, w) && Fit(w) && Effects(h, w, rs) == Some(next) && SomeReleases(rs, m) && m in w.db.memory
    ensures m in next.db.memory && !HeldBack(next.db, m)
    decreases |rs|
  {
    var mid := FirstFrees(h, w, rs, next, m);
    if !Releases(rs[0], m) {
      LaterReleases(rs, m);
      EffectsFree(h, mid, rs[1..], next, m);
    }
  }

  lemma {:induction false} LaterReleases(rs: seq<Request>, m: MemoryId)
    requires SomeReleases(rs, m) && !Releases(rs[0], m)
    ensures SomeReleases(rs[1..], m)
  {
    var n :| 0 <= n < |rs| && Releases(rs[n], m);
    assert rs[1..][n - 1] == rs[n];
  }

  // ------------------------------------------------------------------- runs

  /** Between states `i` and `j` a request committed that gives the memory work or vectors. */
  ghost predicate StagedSince(run: Run, i: nat, j: nat, m: MemoryId, rev: Revision)
    requires j <= |run.worlds|
  {
    exists k: nat, n: nat, r: Request {:trigger CommittedAt(run, k, n, r)} ::
      i <= k < j && CommittedAt(run, k, n, r) && StagesFor(run.worlds[..k + 1], r, m, rev)
  }

  /** Between states `i` and `j` a supersession of the memory committed. */
  ghost predicate ReleasedSince(run: Run, i: nat, j: nat, m: MemoryId) {
    exists k: nat, n: nat, r: Request {:trigger CommittedAt(run, k, n, r)} ::
      i <= k < j && CommittedAt(run, k, n, r) && Releases(r, m)
  }

  lemma {:induction false} StepUncovered(h: seq<World>, last: World, e: Event, w: World, m: MemoryId, rev: Revision)
    requires h != [] && last == h[|h| - 1] && Next(h, e, w) && !Covered(last.db, m, rev)
    requires e.Commit? ==> !SomeStages(h, e.requests, m, rev)
    ensures !Covered(w.db, m, rev)
  {
    if e.Commit? {
      EffectsUncovered(h, last, e.requests, w, m, rev);
    }
  }

  lemma {:induction false} UncoveredStays(run: Run, i: nat, j: nat, m: MemoryId, rev: Revision)
    requires IsRun(run) && i <= j < |run.worlds| && !Covered(Tables(run, i), m, rev) && !StagedSince(run, i, j, m, rev)
    ensures !Covered(Tables(run, j), m, rev)
    decreases j
  {
    if i < j {
      UncoveredStays(run, i, j - 1, m, rev);
      NoneStagesAt(run, i, j, m, rev);
      UncoveredOn(run, j, run.worlds[j - 1], run.worlds[j], m, rev);
    }
  }

  lemma {:induction false} NoneStagesAt(run: Run, i: nat, j: nat, m: MemoryId, rev: Revision)
    requires i < j <= |run.events| && j <= |run.worlds| && !StagedSince(run, i, j, m, rev)
    ensures run.events[j - 1].Commit? ==> !SomeStages(run.worlds[..j], run.events[j - 1].requests, m, rev)
  {
    var e := run.events[j - 1];
    if e.Commit? {
      forall n | 0 <= n < |e.requests| ensures !StagesFor(run.worlds[..j], e.requests[n], m, rev) {
        assert CommittedAt(run, j - 1, n, e.requests[n]);
      }
    }
  }

  lemma {:induction false} UncoveredOn(run: Run, j: nat, last: World, w: World, m: MemoryId, rev: Revision)
    requires IsRun(run) && 0 < j < |run.worlds| && last == run.worlds[j - 1] && w == run.worlds[j]
    requires !Covered(last.db, m, rev)
    requires run.events[j - 1].Commit? ==> !SomeStages(run.worlds[..j], run.events[j - 1].requests, m, rev)
    ensures !Covered(w.db, m, rev)
  {
    Cut(run, j);
    StepUncovered(run.worlds[..j], last, run.events[j - 1], w, m, rev);
  }

  lemma {:induction false} StepHolds(h: seq<World>, last: World, e: Event, w: World, m: MemoryId)
    requires h != [] && last == h[|h| - 1] && Fit(last) && History(h, last) && Next(h, e, w)
    requires m in last.db.memory && (HeldBack(last.db, m) || !Present(last.db, m))
    requires e.Commit? ==> !SomeReleases(e.requests, m)
    ensures HeldBack(w.db, m) || !Present(w.db, m)
  {
    if e.Commit? {
      EffectsHold(h, last, e.requests, w, m);
    }
  }

  lemma {:induction false} NoneReleasesAt(run: Run, i: nat, j: nat, m: MemoryId)
    requires i < j <= |run.events| && !ReleasedSince(run, i, j, m)
    ensures run.events[j - 1].Commit? ==> !SomeReleases(run.events[j - 1].requests, m)
    ensures !ReleasedSince(run, i, j - 1, m)
  {
    var e := run.events[j - 1];
    if e.Commit? {
      forall n | 0 <= n < |e.requests| ensures !Releases(e.requests[n], m) {
        assert CommittedAt(run, j - 1, n, e.requests[n]);
      }
    }
  }

  lemma {:induction false} HoldsOn(run: Run, j: nat, last: World, w: World, m: MemoryId)
    requires IsRun(run) && 0 < j < |run.worlds| && last == run.worlds[j - 1] && w == run.worlds[j]
    requires m in last.db.memory && (HeldBack(last.db, m) || !Present(last.db, m))
    requires run.events[j - 1].Commit? ==> !SomeReleases(run.events[j - 1].requests, m)
    ensures HeldBack(w.db, m) || !Present(w.db, m)
  {
    StepWithin(run, j, run.worlds[..j], last, run.events[j - 1], w);
    StepHolds(run.worlds[..j], last, run.events[j - 1], w, m);
  }

  lemma {:induction false} StaysRecorded(run: Run, i: nat, j: nat, m: MemoryId)
    requires IsRun(run) && i <= j < |run.worlds| && m in Tables(run, i).memory
    ensures m in Tables(run, j).memory
  {
    StatesFollow(run, i, j);
  }

  lemma {:induction false} HeldStays(run: Run, i: nat, j: nat, m: MemoryId)
    requires IsRun(run) && i <= j < |run.worlds| && HeldBack(Tables(run, i), m) && !ReleasedSince(run, i, j, m)
    ensures HeldBack(Tables(run, j), m) || !Present(Tables(run, j), m)
    decreases j
  {
    if i < j {
      NoneReleasesAt(run, i, j, m);
      HeldStays(run, i, j - 1, m);
      StaysRecorded(run, i, j - 1, m);
      HoldsOn(run, j, run.worlds[j - 1], run.worlds[j], m);
    }
  }

  lemma {:induction false} StagedAt(run: Run, k: nat, n: nat, r: Request, now: World, w: World, m: MemoryId, rev: Revision)
    requires IsRun(run) && k + 1 < |run.worlds| && CommittedAt(run, k, n, r) && StagesFor(run.worlds[..k + 1], r, m, rev)
    requires now == run.worlds[k] && w == run.worlds[k + 1]
    requires IsActive(now.db, rev) && IsActive(w.db, rev) && Present(w.db, m)
    ensures Covered(w.db, m, rev)
  {
    var h, rs := run.worlds[..k + 1], run.events[k].requests;
    StepWithin(run, k + 1, h, now, run.events[k], w);
    assert SomeStages(h, rs, m, rev);
    EffectsCover(h, now, rs, w, m, rev);
  }

  lemma {:induction false} StagedIsCovered(run: Run, i: nat, j: nat, m: MemoryId, rev: Revision)
    requires IsRun(run) && i <= j < |run.worlds| && StagedSince(run, i, j, m, rev)
    requires m in Tables(run, i).memory && Present(Tables(run, j), m)
    requires IsActive(Tables(run, i), rev) && IsActive(Tables(run, j), rev)
    ensures Covered(Tables(run, j), m, rev)
  {
    var k: nat, n: nat, r: Request :| i <= k < j && CommittedAt(run, k, n, r) && StagesFor(run.worlds[..k + 1], r, m, rev);
    StillThere(run, i, k, j, m, rev);
    StillThere(run, i, k + 1, j, m, rev);
    StagedAt(run, k, n, r, run.worlds[k], run.worlds[k + 1], m, rev);
    CoverLasts(run, k + 1, j, m, rev);
  }

  lemma {:induction false} StillThere(run: Run, i: nat, k: nat, j: nat, m: MemoryId, rev: Revision)
    requires IsRun(run) && i <= k <= j < |run.worlds| && m in Tables(run, i).memory && Present(Tables(run, j), m)
    requires IsActive(Tables(run, i), rev) && IsActive(Tables(run, j), rev)
    ensures Present(Tables(run, k), m) && IsActive(Tables(run, k), rev)
  {
    StaysRecorded(run, i, k, m);
    PresentThroughout(run, k, j, m);
    ActiveThroughout(run, i, k, j, rev);
  }

  lemma {:induction false} ReleasedIsFree(run: Run, i: nat, j: nat, m: MemoryId)
    requires IsRun(run) && i <= j < |run.worlds| && ReleasedSince(run, i, j, m) && m in Tables(run, i).memory
    ensures !HeldBack(Tables(run, j), m)
  {
    var k: nat, n: nat, r: Request :| i <= k < j && CommittedAt(run, k, n, r) && Releases(r, m);
    StatesFollow(run, i, k);
    StatesFollow(run, k + 1, j);
    StepWithin(run, k + 1, run.worlds[..k + 1], run.worlds[k], run.events[k], run.worlds[k + 1]);
    assert SomeReleases(run.events[k].requests, m);
    EffectsFree(run.worlds[..k + 1], run.worlds[k], run.events[k].requests, run.worlds[k + 1], m);
    Loosened(Tables(run, k + 1), Tables(run, j), m);
  }

  /** After a finished pass, while its revision is active: a live memory has neither work
      nor vectors at that revision if and only if it was quarantined and without them when
      the pass began, a supersession has released it since, and nothing committed since
      has given it any. */
  lemma {:induction false} PassUncoversIff(run: Run, revision: Revision, modelId: string, limit: nat, steps: seq<PassStep>, w: nat, m: MemoryId)
    requires IsRun(run) && IsPass(run, revision, modelId, limit, steps)
    requires steps[|steps| - 1].done <= w < |run.worlds| && steps[0].read < |run.worlds|
    requires IsActive(Tables(run, steps[0].read), revision) && IsActive(Tables(run, w), revision)
    requires Present(Tables(run, w), m)
    ensures var start := steps[0].read;
            Embeddable(Tables(run, w), m) && !Covered(Tables(run, w), m, revision)
            <==> (HeldBack(Tables(run, start), m) && !Covered(Tables(run, start), m, revision)
                  && ReleasedSince(run, start, w, m) && !StagedSince(run, start, w, m, revision))
  {
    var start := steps[0].read;
    DoneOrdered(run, revision, modelId, limit, steps, 0, w);
    if Embeddable(Tables(run, w), m) && !Covered(Tables(run, w), m, revision) {
      PassCovers(run, revision, modelId, limit, steps, w, m);
      if !ReleasedSince(run, start, w, m) {
        HeldStays(run, start, w, m);
      }
      if StagedSince(run, start, w, m, revision) {
        StagedIsCovered(run, start, w, m, revision);
      }
    }
    if HeldBack(Tables(run, start), m) && !Covered(Tables(run, start), m, revision)
       && ReleasedSince(run, start, w, m) && !StagedSince(run, start, w, m, revision)
    {
      ReleasedIsFree(run, start, w, m);
      UncoveredStays(run, start, w, m, revision);
    }
  }
}
