/** Embedding work and vectors against the active model revision. */
module StoreEmbedding {

  import opened Succession
  import opened StoreTables
  import opened StoreInvariants
  import opened StoreResidue

  /** A registry that recorded a revision has one active. */
  ghost predicate SomeActive(db: Db) {
    db.models != map[] ==> exists r: Revision :: IsActive(db, r)
  }

  /** Work is staged only for recorded revisions, under their own model. */
  ghost predicate WorkNamed(db: Db) {
    forall k | k in db.details.work :: k.revision in db.models && db.models[k.revision].identity.modelId == k.modelId
  }

  ghost predicate HasWork(db: Db, id: MemoryId, revision: Revision) {
    exists k :: k in db.details.work && k.memory == id && k.revision == revision
  }

  /** Queued, or already embedded, at a revision. */
  ghost predicate Covered(db: Db, id: MemoryId, revision: Revision) {
    HasWork(db, id, revision) || HasVector(db, id, revision)
  }

  /** While a revision stays active, what is covered stays covered. */
  ghost predicate KeepsCover(a: Db, b: Db) {
    forall m: MemoryId, r: Revision | IsActive(a, r) && IsActive(b, r) && Covered(a, m, r) && Present(b, m) :: Covered(b, m, r)
  }

  /** What arrives while a revision is active arrives covered. */
  ghost predicate NewcomersCovered(a: Db, b: Db) {
    forall m: MemoryId, r: Revision | IsActive(a, r) && IsActive(b, r) && m !in a.memory && Present(b, m) :: Covered(b, m, r)
  }

  /** A revision active before and after was active in between. */
  lemma {:induction false} ActiveBetween(a: Db, b: Db, c: Db, r: Revision)
    requires ActiveIsHighest(c) && ActiveIsHighest(b) && SomeActive(b)
    requires Precedes(a, b) && Precedes(b, c)
    requires IsActive(a, r) && IsActive(c, r)
    ensures IsActive(b, r)
  {
    assert r in b.models;
    var q: Revision :| IsActive(b, q);
    assert q in c.models;
    assert q <= r && r <= q;
  }

  lemma {:induction false} PresentBetween(b: Db, c: Db, m: MemoryId)
    requires Precedes(b, c) && m in b.memory && Present(c, m)
    ensures Present(b, m)
  {
    assert RowPrecedes(b.memory[m], c.memory[m]);
  }

  lemma {:induction false} CoverTransitive(a: Db, b: Db, c: Db)
    requires ActiveIsHighest(b) && SomeActive(b) && ActiveIsHighest(c)
    requires Precedes(a, b) && Precedes(b, c)
    requires KeepsCover(a, b) && NewcomersCovered(a, b) && KeepsCover(b, c) && NewcomersCovered(b, c)
    ensures KeepsCover(a, c) && NewcomersCovered(a, c)
  {
    forall m: MemoryId, r: Revision | IsActive(a, r) && IsActive(c, r) && Present(c, m) && (Covered(a, m, r) || m !in a.memory)
      ensures Covered(c, m, r)
    {
      ActiveBetween(a, b, c, r);
      if m in b.memory {
        PresentBetween(b, c, m);
        assert Covered(b, m, r);
      } else {
        assert NewcomersCovered(b, c);
      }
    }
  }

  // --------------------------------------------------------- one statement

  /** Statements that take queue rows or vectors away. */
  predicate Removes(st: Statement) {
    st.OnDetails? && (st.detail.DeleteVectors? || st.detail.DropVectors? || st.detail.DeleteQueue?
                      || (st.detail.Sweep? && st.detail.table.VectorTable?))
  }

  lemma {:induction false} AddsDetail(db: Db, d: DetailStatement)
    requires !Removes(OnDetails(d)) && WriteDetail(db, d).Wrote?
    ensures db.details.work.Keys <= WriteDetail(db, d).table.work.Keys
    ensures db.details.vectors <= WriteDetail(db, d).table.vectors
    ensures d.StageWork? ==> d.work in WriteDetail(db, d).table.work
    ensures d.InsertVector? ==> d.piece in WriteDetail(db, d).table.vectors
  {
  }

  lemma {:induction false} AddsStep(db: Db, st: Statement)
    requires !Removes(st) && Exec(db, st).Ran?
    ensures db.details.work.Keys <= Exec(db, st).db.details.work.Keys
    ensures db.details.vectors <= Exec(db, st).db.details.vectors
    ensures st.OnDetails? && st.detail.StageWork? ==> st.detail.work in Exec(db, st).db.details.work
    ensures st.OnDetails? && st.detail.InsertVector? ==> st.detail.piece in Exec(db, st).db.details.vectors
    ensures !st.OnRegistry? ==> Exec(db, st).db.models == db.models
    ensures st.Guard? ==> Holds(db, st.check)
  {
    if st.OnDetails? {
      AddsDetail(db, st.detail);
    }
  }

  ghost predicate Additive(sts: seq<Statement>) {
    forall i | 0 <= i < |sts| :: !Removes(sts[i]) && !sts[i].OnRegistry?
  }

  /** The checks that read the registry only. */
  predicate ReadsRegistry(check: Check) {
    check.NoModel? || check.ModelActive? || check.IdentityActive?
  }

  /** A list that only adds: its guards held from the start, and what it staged is there. */
  lemma {:induction false} AdditiveAll(db: Db, sts: seq<Statement>)
    requires Additive(sts) && ExecAll(db, sts).Ran?
    ensures var end := ExecAll(db, sts).db;
            && end.models == db.models
            && db.details.work.Keys <= end.details.work.Keys
            && db.details.vectors <= end.details.vectors
            && (forall st | st in sts && st.OnDetails? && st.detail.StageWork? :: st.detail.work in end.details.work)
            && (forall st | st in sts && st.OnDetails? && st.detail.InsertVector? :: st.detail.piece in end.details.vectors)
            && (forall st | st in sts && st.Guard? && ReadsRegistry(st.check) :: Holds(db, st.check))
    decreases |sts|
  {
    if sts != [] {
      var next := Exec(db, sts[0]).db;
      assert !Removes(sts[0]);
      AddsStep(db, sts[0]);
      var rest := sts[1..];
      forall i | 0 <= i < |rest| ensures !Removes(rest[i]) && !rest[i].OnRegistry? {
        assert rest[i] == sts[i + 1];
      }
      AdditiveAll(next, rest);
      forall st | st in sts ensures st == sts[0] || st in rest {
        var i :| 0 <= i < |sts| && sts[i] == st;
        if i > 0 { assert rest[i - 1] == st; }
      }
      forall st | st in sts && st.Guard? && ReadsRegistry(st.check) ensures Holds(db, st.check) {
        if st in rest { assert Holds(next, st.check); }
      }
    }
  }

  lemma {:induction false} AdditiveKeepsCover(db: Db, sts: seq<Statement>)
    requires Additive(sts) && ExecAll(db, sts).Ran?
    ensures KeepsCover(db, ExecAll(db, sts).db)
  {
    AdditiveAll(db, sts);
    var end := ExecAll(db, sts).db;
    forall m: MemoryId, r: Revision | Covered(db, m, r) ensures Covered(end, m, r) {
      if HasVector(db, m, r) {
        var p :| p in db.details.vectors && p.memory == m && p.revision == r;
        assert p in end.details.vectors;
      } else {
        var k :| k in db.details.work && k.memory == m && k.revision == r;
        assert k in end.details.work;
      }
    }
  }

  /** Statements that take no cover away and leave the registry alone. */
  predicate Harmless(st: Statement) {
    !Removes(st) && !st.OnRegistry?
  }

  lemma {:induction false} WorkStep(db: Db, st: Statement)
    requires WorkNamed(db) && ActiveIsHighest(db) && Exec(db, st).Ran?
    requires st.OnDetails? && st.detail.StageWork? ==>
      st.detail.work.revision in db.models && db.models[st.detail.work.revision].identity.modelId == st.detail.work.modelId
    ensures WorkNamed(Exec(db, st).db)
  {
    if st.OnRegistry? {
      RegistryStaysHighest(db, st.registry);
    }
  }
}
