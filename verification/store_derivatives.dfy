/** The embedding pipeline: re-embedding, worker commits, activation and dropping. */
module StoreDerivatives {

  import opened Succession
  import opened StoreTables
  import opened StoreInvariants
  import opened StoreStaging
  import opened StoreResidue
  import opened StoreEmbedding
  import opened StoreOperations

  lemma {:induction false} ReembedFamiliar(ids: seq<MemoryId>, revision: Revision, modelId: string)
    ensures Familiar(ReembedStatements(ids, revision, modelId)) && Additive(ReembedStatements(ids, revision, modelId))
    ensures forall m | m in ids :: OnDetails(StageWork(WorkKey(m, revision, modelId))) in ReembedStatements(ids, revision, modelId)
    ensures ids != [] ==> Guard(ModelActive(revision, modelId)) in ReembedStatements(ids, revision, modelId)
    decreases |ids|
  {
    if ids != [] {
      ReembedFamiliar(ids[1..], revision, modelId);
      assert ReembedStatements(ids, revision, modelId)[1] == Guard(ModelActive(revision, modelId));
      assert ReembedStatements(ids, revision, modelId)[2] == OnDetails(StageWork(WorkKey(ids[0], revision, modelId)));
    }
  }

  /** Each memory is live where its work row is staged, or the batch is gone. */
  lemma {:induction false} ReembedGood(db: Db, ids: seq<MemoryId>, revision: Revision, modelId: string)
    requires Good(db) && ExecAll(db, ReembedStatements(ids, revision, modelId)).Ran?
    ensures Good(ExecAll(db, ReembedStatements(ids, revision, modelId)).db)
    ensures Precedes(db, ExecAll(db, ReembedStatements(ids, revision, modelId)).db)
    decreases |ids|
  {
    if ids != [] {
      var triple := [Guard(MemoryLive(ids[0])), Guard(ModelActive(revision, modelId)),
                     OnDetails(StageWork(WorkKey(ids[0], revision, modelId)))];
      var rest := ReembedStatements(ids[1..], revision, modelId);
      ExecAllAppend(db, triple, rest);
      TripleGuards(db, ids[0], revision, modelId);
      SteadyAll(db, triple, {ids[0]});
      var mid := ExecAll(db, triple).db;
      ReembedGood(mid, ids[1..], revision, modelId);
      PrecedesTransitive(db, mid, ExecAll(mid, rest).db);
    }
  }

  lemma {:induction false} TripleGuards(db: Db, id: MemoryId, revision: Revision, modelId: string)
    requires ExecAll(db, [Guard(MemoryLive(id)), Guard(ModelActive(revision, modelId)),
                          OnDetails(StageWork(WorkKey(id, revision, modelId)))]).Ran?
    ensures Present(db, id) && Recorded(db, revision, modelId)
    ensures AllSteady(db, [Guard(MemoryLive(id)), Guard(ModelActive(revision, modelId)),
                           OnDetails(StageWork(WorkKey(id, revision, modelId)))], {id})
  {
    var sts := [Guard(MemoryLive(id)), Guard(ModelActive(revision, modelId)), OnDetails(StageWork(WorkKey(id, revision, modelId)))];
    assert Holds(db, MemoryLive(id));
    assert sts[1..][0] == Guard(ModelActive(revision, modelId));
    assert Holds(db, ModelActive(revision, modelId));
  }

  lemma {:induction false} ReembedCovers(db: Db, ids: seq<MemoryId>, revision: Revision, modelId: string, m: MemoryId)
    requires Good(db) && ExecAll(db, ReembedStatements(ids, revision, modelId)).Ran? && m in ids
    ensures Covered(ExecAll(db, ReembedStatements(ids, revision, modelId)).db, m, revision)
  {
    var sts := ReembedStatements(ids, revision, modelId);
    ReembedFamiliar(ids, revision, modelId);
    AdditiveAll(db, sts);
    assert OnDetails(StageWork(WorkKey(m, revision, modelId))) in sts;
    assert WorkKey(m, revision, modelId) in ExecAll(db, sts).db.details.work;
  }

  lemma {:induction false} ReembedOnward(db: Db, sts: seq<Statement>)
    requires Familiar(sts) && Additive(sts) && ExecAll(db, sts).Ran? && Precedes(db, ExecAll(db, sts).db)
    ensures Onward(db, ExecAll(db, sts).db)
  {
    FamiliarAll(db, sts);
    AdditiveKeepsCover(db, sts);
  }

  lemma {:induction false} ReembedKeeps(db: Db, ids: seq<MemoryId>, revision: Revision, modelId: string)
    requires Good(db) && ExecAll(db, ReembedStatements(ids, revision, modelId)).Ran?
    ensures var end := ExecAll(db, ReembedStatements(ids, revision, modelId)).db;
            && Good(end) && Onward(db, end)
            && (forall m | m in ids :: Covered(end, m, revision))
            && (ids != [] ==> IsActive(end, revision))
  {
    var sts := ReembedStatements(ids, revision, modelId);
    ReembedGood(db, ids, revision, modelId);
    ReembedFamiliar(ids, revision, modelId);
    ReembedOnward(db, sts);
    AdditiveAll(db, sts);
    forall m | m in ids ensures Covered(ExecAll(db, sts).db, m, revision) {
      ReembedCovers(db, ids, revision, modelId, m);
    }
    if ids != [] {
      assert Holds(db, ModelActive(revision, modelId));
    }
  }

  // ------------------------------------------------------------- the worker

  /** The chunk rows of one memory at one revision, `count` of them. */
  function Pieces(id: MemoryId, revision: Revision, ordinal: nat, count: nat): set<Piece> {
    set i | ordinal <= i < ordinal + count :: Piece(id, revision, i)
  }

  lemma {:induction false} PiecesRun(db: Db, id: MemoryId, revision: Revision, ordinal: nat, count: nat)
    requires ExecAll(db, PieceStatements(id, revision, ordinal, count)).Ran?
    ensures ExecAll(db, PieceStatements(id, revision, ordinal, count)).db == db.(details := db.details.(
      chunks := db.details.chunks + Pieces(id, revision, ordinal, count),
      vectors := db.details.vectors + Pieces(id, revision, ordinal, count)))
    decreases count
  {
    var new_ := Pieces(id, revision, ordinal, count);
    if count == 0 {
      assert db.details.chunks + new_ == db.details.chunks && db.details.vectors + new_ == db.details.vectors;
    } else {
      var piece := Piece(id, revision, ordinal);
      var pair := [OnDetails(InsertChunk(piece)), OnDetails(InsertVector(piece))];
      var rest := PieceStatements(id, revision, ordinal + 1, count - 1);
      ExecAllAppend(db, pair, rest);
      assert pair == [pair[0]] + [pair[1]];
      HeadFirst(db, pair[0], [pair[1]]);
      HeadFirst(Exec(db, pair[0]).db, pair[1], []);
      assert [pair[1]] + [] == [pair[1]];
      var mid := ExecAll(db, pair).db;
      assert mid == db.(details := db.details.(chunks := db.details.chunks + {piece}, vectors := db.details.vectors + {piece}));
      PiecesRun(mid, id, revision, ordinal + 1, count - 1);
      assert new_ == {piece} + Pieces(id, revision, ordinal + 1, count - 1);
      assert db.details.chunks + new_ == db.details.chunks + {piece} + Pieces(id, revision, ordinal + 1, count - 1);
      assert db.details.vectors + new_ == db.details.vectors + {piece} + Pieces(id, revision, ordinal + 1, count - 1);
    }
  }

  function Without(pieces: set<Piece>, id: MemoryId, revision: Revision): set<Piece> {
    set p | p in pieces && !(p.memory == id && p.revision == revision)
  }

  /** The tables a worker's commit leaves, and what must have held for it to commit. */
  ghost predicate Replaces(db: Db, work: WorkKey, identity: Identity, count: nat, end: Db) {
    && Embeddable(db, work.memory) && IsActive(db, work.revision) && db.models[work.revision].identity == identity
    && end == db.(details := db.details.(
         chunks := Without(db.details.chunks, work.memory, work.revision) + Pieces(work.memory, work.revision, 0, count),
         vectors := Without(db.details.vectors, work.memory, work.revision) + Pieces(work.memory, work.revision, 0, count),
         work := if work in db.details.work then db.details.work[work := Done] else db.details.work))
  }

  lemma {:induction false} DeletesRun(db: Db, id: MemoryId, revision: Revision, rest: seq<Statement>)
    requires ExecAll(db, [OnDetails(DeleteVectors(id, revision))] + ([OnDetails(DeleteChunks(id, revision))] + rest)).Ran?
    ensures var mid := db.(details := db.details.(
              chunks := Without(db.details.chunks, id, revision), vectors := Without(db.details.vectors, id, revision)));
            ExecAll(db, [OnDetails(DeleteVectors(id, revision))] + ([OnDetails(DeleteChunks(id, revision))] + rest)) == ExecAll(mid, rest)
  {
    var c, d := OnDetails(DeleteVectors(id, revision)), OnDetails(DeleteChunks(id, revision));
    HeadFirst(db, c, [d] + rest);
    var mid := Exec(db, c).db;
    HeadFirst(mid, d, rest);
    assert mid.details.vectors == Without(db.details.vectors, id, revision);
    assert Exec(mid, d).db.details.chunks == Without(db.details.chunks, id, revision);
  }

  lemma {:induction false} GuardsRun(db: Db, work: WorkKey, identity: Identity, rest: seq<Statement>)
    requires ExecAll(db, [Guard(MemoryLive(work.memory)), Guard(IdentityActive(work.revision, identity)),
                          OnDetails(DeleteVectors(work.memory, work.revision)), OnDetails(DeleteChunks(work.memory, work.revision))] + rest).Ran?
    ensures Embeddable(db, work.memory) && IsActive(db, work.revision) && db.models[work.revision].identity == identity
    ensures var mid := db.(details := db.details.(
              chunks := Without(db.details.chunks, work.memory, work.revision),
              vectors := Without(db.details.vectors, work.memory, work.revision)));
            ExecAll(db, [Guard(MemoryLive(work.memory)), Guard(IdentityActive(work.revision, identity)),
                         OnDetails(DeleteVectors(work.memory, work.revision)), OnDetails(DeleteChunks(work.memory, work.revision))] + rest)
            == ExecAll(mid, rest)
  {
    var a, b := Guard(MemoryLive(work.memory)), Guard(IdentityActive(work.revision, identity));
    var c, d := OnDetails(DeleteVectors(work.memory, work.revision)), OnDetails(DeleteChunks(work.memory, work.revision));
    assert [a, b, c, d] + rest == [a] + ([b] + ([c] + ([d] + rest)));
    HeadFirst(db, a, [b] + ([c] + ([d] + rest)));
    HeadFirst(db, b, [c] + ([d] + rest));
    DeletesRun(db, work.memory, work.revision, rest);
  }

  /** A worker's commit is a replacement: the old rows of that memory at that revision
      are gone, the new ones are there, and no other row moved. */
  lemma {:induction false} WorkerReplaces(db: Db, work: WorkKey, identity: Identity, count: nat)
    requires ExecAll(db, VectorStatements(work, identity, count)).Ran?
    ensures Replaces(db, work, identity, count, ExecAll(db, VectorStatements(work, identity, count)).db)
  {
    var pieces, last := PieceStatements(work.memory, work.revision, 0, count), OnDetails(CompleteWork(work));
    var front := [Guard(MemoryLive(work.memory)), Guard(IdentityActive(work.revision, identity)),
                  OnDetails(DeleteVectors(work.memory, work.revision)), OnDetails(DeleteChunks(work.memory, work.revision))];
    assert VectorStatements(work, identity, count) == front + (pieces + [last]);
    GuardsRun(db, work, identity, pieces + [last]);
    var mid := db.(details := db.details.(
              chunks := Without(db.details.chunks, work.memory, work.revision),
              vectors := Without(db.details.vectors, work.memory, work.revision)));
    ExecAllAppend(mid, pieces, [last]);
    PiecesRun(mid, work.memory, work.revision, 0, count);
    var late := ExecAll(mid, pieces).db;
    assert [last][1..] == [];
    assert ExecAll(late, [last]) == ExecAll(Exec(late, last).db, []);
  }

  lemma {:induction false} ReplacedGood(db: Db, work: WorkKey, identity: Identity, count: nat, end: Db)
    requires Good(db) && Replaces(db, work, identity, count, end) && count > 0
    ensures NoResidue(end) && WorkNamed(end) && SomeActive(end) && Onward(db, end) && WellKept(end)
  {
    assert forall m: MemoryId :: Present(end, m) == Present(db, m);
    assert Links(end) == Links(db);
    assert forall r: Revision :: IsActive(end, r) == IsActive(db, r);
    var fresh_ := Piece(work.memory, work.revision, 0);
    assert fresh_ in Pieces(work.memory, work.revision, 0, count);
    assert fresh_ in end.details.vectors;
    forall m: MemoryId, r: Revision | HasVector(db, m, r) ensures HasVector(end, m, r) {
      if !(m == work.memory && r == work.revision) {
        var p :| p in db.details.vectors && p.memory == m && p.revision == r;
        assert p in end.details.vectors;
      }
    }
    forall m: MemoryId, r: Revision | Covered(db, m, r) ensures Covered(end, m, r) {
      if HasWork(db, m, r) {
        var k :| k in db.details.work && k.memory == m && k.revision == r;
        assert k in end.details.work;
      }
    }
    if end.models != map[] {
      var r: Revision :| IsActive(db, r);
      assert IsActive(end, r);
    }
  }

  /** Work completed by a worker that had text to embed left vectors, and only then. */
  lemma {:induction false} WorkerKeeps(db: Db, work: WorkKey, identity: Identity, count: nat)
    requires Good(db) && count > 0 && ExecAll(db, VectorStatements(work, identity, count)).Ran?
    ensures var end := ExecAll(db, VectorStatements(work, identity, count)).db; Good(end) && Onward(db, end)
  {
    WorkerReplaces(db, work, identity, count);
    ReplacedGood(db, work, identity, count, ExecAll(db, VectorStatements(work, identity, count)).db);
  }

  /** What a worker looks at before it claims: some model is active, and if its number is
      the worker's own, it is the worker's own model. */
  ghost predicate MayDrain(read: Db, revision: Revision, own: Identity) {
    exists r: Revision :: IsActive(read, r) && (r == revision ==> read.models[r].identity == own)
  }

  /** On what a worker completes an item without vectors: the memory is gone, or the active
      model is not its own. */
  ghost predicate CompletesEmpty(read: Db, work: WorkKey, own: Identity) {
    || work.memory !in read.memory || read.memory[work.memory].state == Erased
    || exists r: Revision ::
         IsActive(read, r) && !(r == work.revision && read.models[r].identity == own && work.modelId == own.modelId)
  }

  /** The worker's number is active, under another model. */
  ghost predicate Strange(read: Db, work: WorkKey, own: Identity) {
    IsActive(read, work.revision) && read.models[work.revision].identity != own
  }

  /** Unless the worker's number is active under another model, what it completes without
      vectors is beyond use for ever: the memory is erased, or the revision overtaken. */
  lemma {:induction false} MootStaysMoot(claimed: Db, read: Db, db: Db, work: WorkKey, own: Identity)
    requires NoResidue(claimed) && WorkNamed(claimed) && work in claimed.details.work
    requires Precedes(claimed, read) && Precedes(read, db) && ActiveIsHighest(read) && ActiveIsHighest(db)
    requires CompletesEmpty(read, work, own) && !Strange(read, work, own)
    ensures !(Present(db, work.memory) && IsActive(db, work.revision))
  {
    assert work.memory in read.memory && work.revision in read.models;
    assert read.models[work.revision].identity.modelId == work.modelId;
    if read.memory[work.memory].state == Erased {
      assert RowPrecedes(read.memory[work.memory], db.memory[work.memory]);
    } else {
      var r: Revision :| IsActive(read, r)
        && !(r == work.revision && read.models[r].identity == own && work.modelId == own.modelId);
      assert work.revision <= r && r in db.models;
    }
  }

  /** A worker meets its own number under another model only if nothing was recorded under
      that number when it began. */
  lemma {:induction false} StrangeWasUnrecorded(begun: Db, read: Db, work: WorkKey, own: Identity)
    requires Precedes(begun, read) && ActiveIsHighest(begun) && ActiveIsHighest(read)
    requires MayDrain(begun, work.revision, own) && Strange(read, work, own)
    ensures work.revision !in begun.models
  {
    var a: Revision :| IsActive(begun, a) && (a == work.revision ==> begun.models[a].identity == own);
    assert a in read.models && a <= work.revision;
  }

  /** Completing an item, whatever was read, keeps the invariant. */
  lemma {:induction false} EmptyCompletionKeeps(db: Db, work: WorkKey)
    requires Good(db)
    ensures var end := ExecAll(db, [OnDetails(CompleteWork(work))]);
            end.Ran? && Good(end.db) && Onward(db, end.db)
  {
    var st := OnDetails(CompleteWork(work));
    assert [st][1..] == [];
    assert ExecAll(db, [st]) == ExecAll(Exec(db, st).db, []);
    assert AllSteady(db, [st], {});
    SteadyOnward(db, [st], {});
  }

  // ------------------------------------------------------------ the registry

  /** What an activation that commits leaves: `revision` active and nothing else,
      no earlier revision above it, and its identity never another than before. */
  lemma {:induction false} ActivationRuns(db: Db, revision: Revision, identity: Identity, now: nat)
    requires ActiveIsHighest(db) && ExecAll(db, ActivateStatements(revision, identity, now)).Ran?
    ensures var end := ExecAll(db, ActivateStatements(revision, identity, now)).db;
            && end == db.(models := end.models)
            && IsActive(end, revision) && end.models[revision].identity == identity
            && (forall r: Revision | IsActive(end, r) :: r == revision)
            && (forall r: Revision | r in db.models :: r <= revision)
            && (revision in db.models ==> db.models[revision].identity == identity)
            && end.models.Keys == db.models.Keys + {revision}
  {
    var off, on := OnRegistry(Deactivate(revision)), OnRegistry(InsertModel(revision, identity, now));
    assert ActivateStatements(revision, identity, now) == [off] + [on];
    HeadFirst(db, off, [on]);
    var mid := Exec(db, off).db;
    assert mid.models.Keys == db.models.Keys;
    HeadFirst(mid, on, []);
    assert [on] + [] == [on];
    forall r: Revision | r in db.models ensures r <= revision {
      assert r in mid.models;
    }
  }

  lemma {:induction false} ActivationKeeps(db: Db, revision: Revision, identity: Identity, now: nat)
    requires Good(db) && revision > 0 && ExecAll(db, ActivateStatements(revision, identity, now)).Ran?
    ensures var end := ExecAll(db, ActivateStatements(revision, identity, now)).db; Good(end) && Onward(db, end)
  {
    var sts := ActivateStatements(revision, identity, now);
    ActivationRuns(db, revision, identity, now);
    var end := ExecAll(db, sts).db;
    assert AllSound(db, sts);
    AllKeep(db, sts);
    assert forall m: MemoryId :: Present(end, m) == Present(db, m);
    assert IsActive(end, revision);
    assert forall m: MemoryId, r: Revision :: Covered(end, m, r) == Covered(db, m, r);
  }

  lemma {:induction false} DropsRun(db: Db, revision: Revision)
    requires ExecAll(db, [OnDetails(DropVectors(revision))] + [OnDetails(DropChunks(revision))]).Ran?
    ensures var end := ExecAll(db, [OnDetails(DropVectors(revision))] + [OnDetails(DropChunks(revision))]).db;
            && end == db.(details := db.details.(chunks := end.details.chunks, vectors := end.details.vectors))
            && (IsActive(db, revision) ==> end == db)
            && (forall p | p in db.details.vectors && p.revision != revision :: p in end.details.vectors)
            && end.details.vectors <= db.details.vectors && end.details.chunks <= db.details.chunks
            && (revision in db.models && !IsActive(db, revision) ==>
                  (forall p | p in end.details.vectors :: p.revision != revision)
                  && forall p | p in end.details.chunks :: p.revision != revision)
  {
    var c, d := OnDetails(DropVectors(revision)), OnDetails(DropChunks(revision));
    HeadFirst(db, c, [d]);
    HeadFirst(Exec(db, c).db, d, []);
    assert [d] + [] == [d];
  }

  /** Dropping touches vectors of revisions that are not active, and nothing else that counts. */
  lemma {:induction false} DropRuns(db: Db, revision: Revision)
    requires ExecAll(db, DropStatements(revision)).Ran?
    ensures var end := ExecAll(db, DropStatements(revision)).db;
            && end == db.(details := db.details.(chunks := end.details.chunks, vectors := end.details.vectors))
            && (IsActive(db, revision) ==> end == db)
            && (forall p | p in db.details.vectors && p.revision != revision :: p in end.details.vectors)
            && end.details.vectors <= db.details.vectors && end.details.chunks <= db.details.chunks
            && (revision in db.models && !IsActive(db, revision) ==>
                  (forall p | p in end.details.vectors :: p.revision != revision)
                  && forall p | p in end.details.chunks :: p.revision != revision)
            && (forall m | Embeddable(db, m) :: exists r: Revision :: IsActive(db, r) && HasVector(db, m, r))
  {
    var a, b := Guard(CoverageComplete), OnRegistry(TouchInactive(revision));
    var c, d := OnDetails(DropVectors(revision)), OnDetails(DropChunks(revision));
    assert DropStatements(revision) == [a] + ([b] + ([c] + [d]));
    HeadFirst(db, a, [b] + ([c] + [d]));
    HeadFirst(db, b, [c] + [d]);
    DropsRun(db, revision);
    assert Holds(db, CoverageComplete);
    forall m | Embeddable(db, m) ensures exists r: Revision :: IsActive(db, r) && HasVector(db, m, r) {
      var r :| r in db.models && db.models[r].active && HasVector(db, m, r);
      assert IsActive(db, r);
    }
  }

  lemma {:induction false} DropKeeps(db: Db, revision: Revision)
    requires Good(db) && ExecAll(db, DropStatements(revision)).Ran?
    ensures var end := ExecAll(db, DropStatements(revision)).db; Good(end) && Onward(db, end)
  {
    var sts := DropStatements(revision);
    DropRuns(db, revision);
    var end := ExecAll(db, sts).db;
    assert AllSound(db, sts);
    AllKeep(db, sts);
    assert forall m: MemoryId :: Present(end, m) == Present(db, m);
    forall m: MemoryId, r: Revision | IsActive(db, r) && HasVector(db, m, r) ensures HasVector(end, m, r) {
      if r != revision {
        var p :| p in db.details.vectors && p.memory == m && p.revision == r;
        assert p in end.details.vectors;
      }
    }
    forall m: MemoryId, r: Revision | IsActive(db, r) && Covered(db, m, r) ensures Covered(end, m, r) {
      if HasWork(db, m, r) {
        var k :| k in db.details.work && k.memory == m && k.revision == r;
        assert k in end.details.work;
      }
    }
    if end.models != map[] {
      var r: Revision :| IsActive(db, r);
      assert IsActive(end, r);
    }
  }
}
