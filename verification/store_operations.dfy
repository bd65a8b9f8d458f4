/** What each operation keeps, however stale its reads, when its transaction commits. */
module StoreOperations {

  import opened Wrappers
  import opened Succession
  import opened StoreTables
  import opened StoreInvariants
  import opened StoreStaging
  import opened StoreResidue
  import opened StoreEmbedding

  /** The invariant of every committed state, and of every point between two
      operations of one transaction. */
  ghost predicate Good(db: Db) {
    WellKept(db) && NoResidue(db) && WorkNamed(db) && SomeActive(db) && 0 !in db.models
  }

  /** `later` may follow `earlier`: nothing came back, and nothing covered was uncovered. */
  ghost predicate Onward(earlier: Db, later: Db) {
    Precedes(earlier, later) && KeepsCover(earlier, later) && NewcomersCovered(earlier, later)
  }

  lemma {:induction false} OnwardTransitive(a: Db, b: Db, c: Db)
    requires Good(b) && Good(c) && Onward(a, b) && Onward(b, c)
    ensures Onward(a, c)
  {
    PrecedesTransitive(a, b, c);
    CoverTransitive(a, b, c);
  }

  ghost predicate Recorded(db: Db, revision: Revision, modelId: string) {
    revision in db.models && db.models[revision].identity.modelId == modelId
  }

  /** A statement that erases nothing, takes no vector away, and
      hangs rows only on memories of `ids` and work only on recorded revisions. */
  ghost predicate Steady(db: Db, st: Statement, ids: set<MemoryId>) {
    && Sound(db, st) && Gentle(st) && Harmless(st)
    && (Attaches(st).Some? ==> Attaches(st).value in ids)
    && (st.OnDetails? && st.detail.StageWork? ==> Recorded(db, st.detail.work.revision, st.detail.work.modelId))
  }

  ghost predicate AllSteady(db: Db, sts: seq<Statement>, ids: set<MemoryId>) {
    forall i | 0 <= i < |sts| :: Steady(db, sts[i], ids)
  }

  lemma {:induction false} SteadyLater(a: Db, b: Db, st: Statement, ids: set<MemoryId>)
    requires Steady(a, st, ids) && Precedes(a, b)
    ensures Steady(b, st, ids)
  {
    SoundLater(a, b, st);
  }

  lemma {:induction false} AllSteadyLater(a: Db, b: Db, sts: seq<Statement>, ids: set<MemoryId>)
    requires AllSteady(a, sts, ids) && Precedes(a, b)
    ensures AllSteady(b, sts, ids)
  {
    forall i | 0 <= i < |sts| ensures Steady(b, sts[i], ids) {
      SteadyLater(a, b, sts[i], ids);
    }
  }

  ghost predicate AllPresent(db: Db, ids: set<MemoryId>) {
    forall m | m in ids :: Present(db, m)
  }

  lemma {:induction false} SteadyStep(db: Db, st: Statement, ids: set<MemoryId>)
    requires Good(db) && Steady(db, st, ids) && AllPresent(db, ids) && Exec(db, st).Ran?
    ensures Good(Exec(db, st).db) && Precedes(db, Exec(db, st).db) && AllPresent(Exec(db, st).db, ids)
    ensures Exec(db, st).db.models == db.models
  {
    var after := Exec(db, st).db;
    ExecKeeps(db, st);
    GentleStep(db, st);
    WorkStep(db, st);
    assert after.models == db.models;
    assert SomeActive(after) by {
      if after.models != map[] {
        var r: Revision :| IsActive(db, r);
        assert IsActive(after, r);
      }
    }
  }

  /** A steady list keeps the invariant. */
  lemma {:induction false} SteadyAll(db: Db, sts: seq<Statement>, ids: set<MemoryId>)
    requires Good(db) && AllSteady(db, sts, ids) && AllPresent(db, ids) && ExecAll(db, sts).Ran?
    ensures Good(ExecAll(db, sts).db) && Precedes(db, ExecAll(db, sts).db) && AllPresent(ExecAll(db, sts).db, ids)
    decreases |sts|
  {
    if sts != [] {
      assert Steady(db, sts[0], ids);
      SteadyStep(db, sts[0], ids);
      var next := Exec(db, sts[0]).db;
      assert AllSteady(db, sts[1..], ids) by {
        forall i | 0 <= i < |sts[1..]| ensures Steady(db, sts[1..][i], ids) {
          assert sts[1..][i] == sts[i + 1];
        }
      }
      AllSteadyLater(db, next, sts[1..], ids);
      SteadyAll(next, sts[1..], ids);
      PrecedesTransitive(db, next, ExecAll(db, sts).db);
    }
  }

  /** Statements that add no memory row. */
  ghost predicate Familiar(sts: seq<Statement>) {
    forall i | 0 <= i < |sts| :: !(sts[i].OnRows? && sts[i].row.InsertMemory?)
  }

  lemma {:induction false} FamiliarAll(db: Db, sts: seq<Statement>)
    requires Familiar(sts) && ExecAll(db, sts).Ran?
    ensures ExecAll(db, sts).db.memory.Keys == db.memory.Keys
    decreases |sts|
  {
    if sts != [] {
      assert !(sts[0].OnRows? && sts[0].row.InsertMemory?);
      assert Exec(db, sts[0]).db.memory.Keys == db.memory.Keys;
      assert forall i | 0 <= i < |sts[1..]| :: sts[1..][i] == sts[i + 1];
      FamiliarAll(Exec(db, sts[0]).db, sts[1..]);
    }
  }

  /** A steady list that brings no memory moves the tables onward. */
  lemma {:induction false} SteadyOnward(db: Db, sts: seq<Statement>, ids: set<MemoryId>)
    requires Good(db) && AllSteady(db, sts, ids) && AllPresent(db, ids) && Familiar(sts) && ExecAll(db, sts).Ran?
    ensures Good(ExecAll(db, sts).db) && Onward(db, ExecAll(db, sts).db)
  {
    SteadyAll(db, sts, ids);
    FamiliarAll(db, sts);
    assert Additive(sts) by {
      forall i | 0 <= i < |sts| ensures !Removes(sts[i]) && !sts[i].OnRegistry? {
        assert Steady(db, sts[i], ids);
      }
    }
    AdditiveKeepsCover(db, sts);
  }

  lemma {:induction false} SteadyJoin(db: Db, a: seq<Statement>, b: seq<Statement>, ids: set<MemoryId>)
    requires AllSteady(db, a, ids) && AllSteady(db, b, ids)
    ensures AllSteady(db, a + b, ids)
  {
    forall i | 0 <= i < |a + b| ensures Steady(db, (a + b)[i], ids) {
      assert (a + b)[i] == if i < |a| then a[i] else b[i - |a|];
    }
  }

  // ---------------------------------------------------------------- capture

  lemma {:induction false} DerivationsSteady(db: Db, child: MemoryId, parents: seq<MemoryId>)
    ensures AllSteady(db, Derivations(child, parents), {child})
    decreases |parents|
  {
    if parents != [] {
      DerivationsSteady(db, child, parents[1..]);
    }
  }

  lemma {:induction false} EmbeddingSteady(observed: Db, db: Db, id: MemoryId)
    requires Precedes(observed, db)
    ensures AllSteady(db, EmbeddingStatements(observed, id), {id})
  {
  }

  /** All that an insert stages after the row itself. */
  function InsertRest(observed: Db, c: Candidate, key: Option<KeyId>): seq<Statement> {
    [OnDetails(InsertProvenance(c.id))]
    + Derivations(c.id, c.content.parents)
    + [OnCounters(Adjust(Bucket(c.kind, StateOf(c)), 1))]
    + EmbeddingStatements(observed, c.id)
    + [OnDetails(AppendSource(c.id))]
    + KeyStatements(key, Some(c.id))
  }

  lemma {:induction false} InsertSteady(observed: Db, db: Db, c: Candidate, key: Option<KeyId>)
    requires Precedes(observed, db)
    ensures AllSteady(db, InsertRest(observed, c, key), {c.id})
  {
    var ids := {c.id};
    DerivationsSteady(db, c.id, c.content.parents);
    EmbeddingSteady(observed, db, c.id);
    var a := [OnDetails(InsertProvenance(c.id))];
    var b := [OnCounters(Adjust(Bucket(c.kind, StateOf(c)), 1))];
    var d := [OnDetails(AppendSource(c.id))];
    SteadyJoin(db, a, Derivations(c.id, c.content.parents), ids);
    SteadyJoin(db, a + Derivations(c.id, c.content.parents), b, ids);
    SteadyJoin(db, a + Derivations(c.id, c.content.parents) + b, EmbeddingStatements(observed, c.id), ids);
    SteadyJoin(db, a + Derivations(c.id, c.content.parents) + b + EmbeddingStatements(observed, c.id), d, ids);
    SteadyJoin(db, a + Derivations(c.id, c.content.parents) + b + EmbeddingStatements(observed, c.id) + d, KeyStatements(key, Some(c.id)), ids);
  }

  /** If the capture committed, its embedding statements agree with the registry then:
      the active revision, if there is one, has work for the memory. */
  lemma {:induction false} EmbeddingCovers(observed: Db, db: Db, sts: seq<Statement>, id: MemoryId, r: Revision)
    requires Additive(sts) && ExecAll(db, sts).Ran? && ActiveIsHighest(db)
    requires forall st | st in EmbeddingStatements(observed, id) :: st in sts
    requires IsActive(db, r)
    ensures Covered(ExecAll(db, sts).db, id, r)
  {
    AdditiveAll(db, sts);
    var staged := EmbeddingStatements(observed, id);
    assert staged[0] in staged && Holds(db, staged[0].check);
    if Observe(observed).Some? {
      assert staged[1] in staged && Observe(observed).value == r;
    }
  }

  lemma {:induction false} InsertSplits(observed: Db, c: Candidate, key: Option<KeyId>)
    ensures InsertStatements(observed, c, key) == [OnRows(InsertMemory(c.id, RowOf(c)))] + InsertRest(observed, c, key)
  {
  }

  lemma {:induction false} HeadFirst(db: Db, first: Statement, rest: seq<Statement>)
    requires ExecAll(db, [first] + rest).Ran?
    ensures Exec(db, first).Ran? && ExecAll(Exec(db, first).db, rest) == ExecAll(db, [first] + rest)
  {
    assert ([first] + rest)[1..] == rest;
  }

  lemma {:induction false} RowArrives(db: Db, c: Candidate)
    requires Good(db) && Exec(db, OnRows(InsertMemory(c.id, RowOf(c)))).Ran?
    ensures var mid := Exec(db, OnRows(InsertMemory(c.id, RowOf(c)))).db;
            Good(mid) && Precedes(db, mid) && Present(mid, c.id) && mid == db.(memory := db.memory[c.id := RowOf(c)])
  {
    SteadyStep(db, OnRows(InsertMemory(c.id, RowOf(c))), {});
  }

  lemma {:induction false} InsertRestKinds(db: Db, sts: seq<Statement>, ids: set<MemoryId>)
    requires AllSteady(db, sts, ids)
    ensures Additive(sts)
  {
    forall i | 0 <= i < |sts| ensures !Removes(sts[i]) && !sts[i].OnRegistry? {
      assert Steady(db, sts[i], ids);
    }
  }

  lemma {:induction false} InsertRestFamiliar(observed: Db, c: Candidate, key: Option<KeyId>)
    ensures Familiar(InsertRest(observed, c, key))
  {
    DerivationsFamiliar(c.id, c.content.parents);
  }

  lemma {:induction false} DerivationsFamiliar(child: MemoryId, parents: seq<MemoryId>)
    ensures Familiar(Derivations(child, parents))
    ensures forall i | 0 <= i < |Derivations(child, parents)| :: Derivations(child, parents)[i].OnDetails?
    decreases |parents|
  {
    if parents != [] {
      DerivationsFamiliar(child, parents[1..]);
    }
  }

  lemma {:induction false} InsertCovers(observed: Db, db: Db, mid: Db, c: Candidate, rest: seq<Statement>)
    requires ActiveIsHighest(mid) && Additive(rest) && Familiar(rest) && ExecAll(mid, rest).Ran?
    requires mid == db.(memory := db.memory[c.id := RowOf(c)])
    requires forall st | st in EmbeddingStatements(observed, c.id) :: st in rest
    ensures KeepsCover(db, ExecAll(mid, rest).db) && NewcomersCovered(db, ExecAll(mid, rest).db)
  {
    var end := ExecAll(mid, rest).db;
    AdditiveKeepsCover(mid, rest);
    FamiliarAll(mid, rest);
    AdditiveAll(mid, rest);
    forall m: MemoryId, r: Revision | IsActive(db, r) && IsActive(end, r) && m !in db.memory && Present(end, m) ensures Covered(end, m, r) {
      assert m == c.id;
      EmbeddingCovers(observed, mid, rest, c.id, r);
    }
    forall m: MemoryId, r: Revision | IsActive(db, r) && IsActive(end, r) && Covered(db, m, r) && Present(end, m) ensures Covered(end, m, r) {
      assert Covered(mid, m, r) && IsActive(mid, r);
    }
  }

  lemma {:induction false} InsertKeeps(observed: Db, db: Db, c: Candidate, key: Option<KeyId>)
    requires Good(db) && Precedes(observed, db)
    requires ExecAll(db, InsertStatements(observed, c, key)).Ran?
    ensures Good(ExecAll(db, InsertStatements(observed, c, key)).db)
    ensures Onward(db, ExecAll(db, InsertStatements(observed, c, key)).db)
  {
    var first, rest := OnRows(InsertMemory(c.id, RowOf(c))), InsertRest(observed, c, key);
    InsertSplits(observed, c, key);
    HeadFirst(db, first, rest);
    RowArrives(db, c);
    var mid := Exec(db, first).db;
    PrecedesTransitive(observed, db, mid);
    InsertSteady(observed, mid, c, key);
    SteadyAll(mid, rest, {c.id});
    PrecedesTransitive(db, mid, ExecAll(mid, rest).db);
    InsertRestKinds(mid, rest, {c.id});
    InsertRestFamiliar(observed, c, key);
    InsertCovers(observed, db, mid, c, rest);
  }

  lemma {:induction false} MergeSteady(observed: Db, rowRead: Db, db: Db, id: MemoryId, c: Candidate, key: Option<KeyId>)
    requires Precedes(observed, db) && Precedes(rowRead, db) && Present(rowRead, id)
    ensures AllSteady(db, MergeStatements(observed, id, rowRead.memory[id].record, c, key), {id})
    ensures Familiar(MergeStatements(observed, id, rowRead.memory[id].record, c, key))
  {
    var expected := rowRead.memory[id].record;
    EmbeddingSteady(observed, db, id);
    var a := [OnRows(Merge(id, expected, Merged(expected, c))), OnDetails(AppendSource(id))];
    assert AllSteady(db, a, {id});
    SteadyJoin(db, a, EmbeddingStatements(observed, id), {id});
    SteadyJoin(db, a + EmbeddingStatements(observed, id), KeyStatements(key, Some(id)), {id});
  }

  lemma {:induction false} MergePresent(db: Db, sts: seq<Statement>, id: MemoryId, expected: Record, merged: Record)
    requires sts != [] && sts[0] == OnRows(Merge(id, expected, merged)) && id in db.memory && ExecAll(db, sts).Ran?
    ensures Present(db, id) && db.memory[id].record == expected
  {
  }

  lemma {:induction false} MergeKeeps(observed: Db, rowRead: Db, db: Db, id: MemoryId, c: Candidate, key: Option<KeyId>)
    requires Good(db) && Precedes(observed, db) && Precedes(rowRead, db) && Present(rowRead, id)
    requires ExecAll(db, MergeStatements(observed, id, rowRead.memory[id].record, c, key)).Ran?
    ensures Good(ExecAll(db, MergeStatements(observed, id, rowRead.memory[id].record, c, key)).db)
    ensures Onward(db, ExecAll(db, MergeStatements(observed, id, rowRead.memory[id].record, c, key)).db)
  {
    var expected := rowRead.memory[id].record;
    var sts := MergeStatements(observed, id, expected, c, key);
    MergePresent(db, sts, id, expected, Merged(expected, c));
    MergeSteady(observed, rowRead, db, id, c, key);
    SteadyOnward(db, sts, {id});
  }

  /** A capture commits only where it leaves nothing hanging on an erased memory and
      nothing uncovered beside an active model, whatever happened since its three reads and
      in whatever order they came. */
  lemma {:induction false} CaptureKeeps(observed: Db, holderRead: Db, rowRead: Db, db: Db, c: Candidate, key: Option<KeyId>, ceiling: nat)
    requires Good(db) && Precedes(observed, db) && Precedes(rowRead, db)
    requires var staged := CaptureStatements(observed, holderRead, rowRead, c, key, ceiling);
             staged.Some? && ExecAll(db, staged.value).Ran?
    ensures var end := ExecAll(db, CaptureStatements(observed, holderRead, rowRead, c, key, ceiling).value).db;
            Good(end) && Onward(db, end)
  {
    match Holder(holderRead, FingerprintOf(c.kind, c.content))
    case None => InsertKeeps(observed, db, c, key);
    case Some(id) => MergeKeeps(observed, rowRead, db, id, c, key);
  }

  // ------------------------------------------- lists that hang rows on nothing

  lemma {:induction false} SupersedeSteady(walked: map<MemoryId, MemoryId>, rowRead: Db, db: Db, prior: MemoryId, heir: MemoryId, at: nat)
    requires Precedes(rowRead, db) && SupersedeStatements(walked, rowRead, prior, heir, at).Some?
    ensures AllSteady(db, SupersedeStatements(walked, rowRead, prior, heir, at).value, {})
  {
  }

  lemma {:induction false} PrepareSteady(db: Db, kinds: seq<Kind>)
    ensures AllSteady(db, PrepareExpiry(kinds), {})
    decreases |kinds|
  {
    if kinds != [] {
      PrepareSteady(db, kinds[1..]);
    }
  }

  lemma {:induction false} ExpiryCountersSteady(db: Db, kinds: seq<Kind>, ids: set<MemoryId>)
    ensures AllSteady(db, ExpiryCounters(kinds, ids), {})
    decreases |kinds|
  {
    if kinds != [] {
      ExpiryCountersSteady(db, kinds[1..], ids);
    }
  }

  lemma {:induction false} ExpirySteady(db: Db, kinds: seq<Kind>, ids: set<MemoryId>, now: nat)
    ensures AllSteady(db, ExpiryStatements(kinds, ids, now), {})
  {
    ExpiryCountersSteady(db, kinds, ids);
    SteadyJoin(db, ExpiryCounters(kinds, ids), [OnRows(Expire(ids, now))], {});
  }

  lemma {:induction false} RedigestSteady(read: Db, db: Db, ids: seq<MemoryId>)
    requires forall m | m in ids :: m in read.memory
    ensures AllSteady(db, RedigestStatements(read, ids), {})
    decreases |ids|
  {
    if ids != [] {
      RedigestSteady(read, db, ids[1..]);
    }
  }

  lemma {:induction false} SteadyFamiliar(db: Db, sts: seq<Statement>)
    requires Good(db) && AllSteady(db, sts, {}) && Familiar(sts) && ExecAll(db, sts).Ran?
    ensures Good(ExecAll(db, sts).db) && Onward(db, ExecAll(db, sts).db)
  {
    SteadyOnward(db, sts, {});
  }
}
