/** Nothing of an erased memory stays behind, and nothing comes back to it. */
module StoreResidue {

  import opened Wrappers
  import opened Succession
  import opened StoreTables
  import opened StoreStaging
  import opened StoreWorld

  /** Every row kept beside a memory belongs to one that still exists. */
  ghost predicate NoResidue(db: Db) {
    && (forall m | m in db.details.provenance :: Present(db, m))
    && (forall p | p in db.details.derivation :: Present(db, p.child))
    && (forall s | s in db.details.sources :: Present(db, s.memory))
    && (forall k | k in db.details.keys && db.details.keys[k].Some? :: Present(db, db.details.keys[k].value))
    && (forall p | p in db.details.chunks :: Present(db, p.memory))
    && (forall p | p in db.details.vectors :: Present(db, p.memory))
    && (forall k | k in db.details.work :: Present(db, k.memory))
    && (forall a | a in db.details.attempts :: Present(db, a.memory))
  }

  /** A statement that turns no row into a tombstone. */
  predicate Gentle(st: Statement) {
    !(st.OnRows? && st.row.Tombstone?)
  }

  /** The memory a statement hangs a new row on. */
  function Attaches(st: Statement): Option<MemoryId> {
    if !st.OnDetails? then None
    else match st.detail
      case InsertProvenance(id) => Some(id)
      case InsertDerivation(child, _) => Some(child)
      case AppendSource(id) => Some(id)
      case InsertKey(_, covers) => covers
      case StageWork(work) => Some(work.memory)
      case InsertChunk(piece) => Some(piece.memory)
      case InsertVector(piece) => Some(piece.memory)
      case _ => None
  }

  lemma {:induction false} RowsStayPresent(db: Db, r: RowStatement)
    requires !r.Tombstone? && WriteRow(db, r).Wrote?
    ensures forall m | Present(db, m) :: Present(db.(memory := WriteRow(db, r).table), m)
  {
  }

  lemma {:induction false} RowsAttach(db: Db, d: DetailStatement, after: Db)
    requires NoResidue(db) && WriteDetail(db, d).Wrote? && after == db.(details := WriteDetail(db, d).table)
    requires Attaches(OnDetails(d)).Some? ==> Present(db, Attaches(OnDetails(d)).value)
    ensures forall m | m in after.details.provenance :: Present(db, m)
    ensures forall p | p in after.details.derivation :: Present(db, p.child)
    ensures forall s | s in after.details.sources :: Present(db, s.memory)
    ensures forall k | k in after.details.keys && after.details.keys[k].Some? :: Present(db, after.details.keys[k].value)
  {
  }

  lemma {:induction false} DerivativesAttach(db: Db, d: DetailStatement, after: Db)
    requires NoResidue(db) && WriteDetail(db, d).Wrote? && after == db.(details := WriteDetail(db, d).table)
    requires Attaches(OnDetails(d)).Some? ==> Present(db, Attaches(OnDetails(d)).value)
    ensures forall p | p in after.details.chunks :: Present(db, p.memory)
    ensures forall p | p in after.details.vectors :: Present(db, p.memory)
    ensures forall k | k in after.details.work :: Present(db, k.memory)
    ensures forall a | a in after.details.attempts :: Present(db, a.memory)
  {
  }

  lemma {:induction false} DetailsAttach(db: Db, d: DetailStatement)
    requires NoResidue(db) && WriteDetail(db, d).Wrote?
    requires Attaches(OnDetails(d)).Some? ==> Present(db, Attaches(OnDetails(d)).value)
    ensures NoResidue(db.(details := WriteDetail(db, d).table))
  {
    var after := db.(details := WriteDetail(db, d).table);
    RowsAttach(db, d, after);
    DerivativesAttach(db, d, after);
    assert forall m: MemoryId :: Present(after, m) == Present(db, m);
  }

  lemma {:induction false} GentleStep(db: Db, st: Statement)
    requires NoResidue(db) && Gentle(st) && Exec(db, st).Ran?
    requires Attaches(st).Some? ==> Present(db, Attaches(st).value)
    ensures NoResidue(Exec(db, st).db)
    ensures forall m | Present(db, m) :: Present(Exec(db, st).db, m)
  {
    var after := Exec(db, st).db;
    match st
    case OnRows(row) => RowsStayPresent(db, row);
    case OnDetails(detail) =>
      DetailsAttach(db, detail);
      assert forall m: MemoryId :: Present(after, m) == Present(db, m);
    case _ =>
      assert forall m: MemoryId :: Present(after, m) == Present(db, m);
  }

  /** Statements that hang rows on one memory only, and erase nothing. */
  ghost predicate GentleTo(sts: seq<Statement>, id: MemoryId) {
    forall i | 0 <= i < |sts| :: Gentle(sts[i]) && (Attaches(sts[i]) == None || Attaches(sts[i]) == Some(id))
  }

  lemma {:induction false} GentleAll(db: Db, sts: seq<Statement>, id: MemoryId)
    requires NoResidue(db) && GentleTo(sts, id) && Present(db, id) && ExecAll(db, sts).Ran?
    ensures NoResidue(ExecAll(db, sts).db)
    ensures forall m | Present(db, m) :: Present(ExecAll(db, sts).db, m)
    decreases |sts|
  {
    if sts != [] {
      assert Gentle(sts[0]);
      GentleStep(db, sts[0]);
      var next := Exec(db, sts[0]).db;
      assert GentleTo(sts[1..], id) by {
        forall i | 0 <= i < |sts[1..]| ensures Gentle(sts[1..][i]) && (Attaches(sts[1..][i]) == None || Attaches(sts[1..][i]) == Some(id)) {
          assert sts[1..][i] == sts[i + 1];
        }
      }
      GentleAll(next, sts[1..], id);
    }
  }

  /** Statements that hang no row on anything. */
  ghost predicate AllDetached(sts: seq<Statement>) {
    forall i | 0 <= i < |sts| :: Gentle(sts[i]) && Attaches(sts[i]) == None
  }

  lemma {:induction false} DetachedAll(db: Db, sts: seq<Statement>)
    requires NoResidue(db) && AllDetached(sts) && ExecAll(db, sts).Ran?
    ensures NoResidue(ExecAll(db, sts).db)
    ensures forall m | Present(db, m) :: Present(ExecAll(db, sts).db, m)
    decreases |sts|
  {
    if sts != [] {
      assert Gentle(sts[0]);
      GentleStep(db, sts[0]);
      forall i | 0 <= i < |sts[1..]| ensures Gentle(sts[1..][i]) && Attaches(sts[1..][i]) == None {
        assert sts[1..][i] == sts[i + 1];
      }
      DetachedAll(Exec(db, sts[0]).db, sts[1..]);
    }
  }

  // ---------------------------------------------------------------- erasing

  /** The statements of a destructive batch: they delete, count, and lay tombstones. */
  predicate Shrinks(st: Statement) {
    match st
    case OnCounters(_) => true
    case OnClaims(claim) => !claim.InsertClaim?
    case OnRows(row) => row.Tombstone? || row.MarkDerived?
    case OnDetails(d) => d.Sweep? || d.DestroyKeysFor? || d.DestroyKeys? || d.DeleteAttempts? || d.DeleteQueue?
    case _ => false
  }

  ghost predicate Within(a: Details, b: Details) {
    && a.provenance <= b.provenance && a.derivation <= b.derivation && a.sources <= b.sources
    && a.chunks <= b.chunks && a.vectors <= b.vectors && a.attempts <= b.attempts
    && (forall k | k in a.keys :: k in b.keys && a.keys[k] == b.keys[k])
    && (forall k | k in a.work :: k in b.work && a.work[k] == b.work[k])
  }

  /** What a deletion leaves empty, and every later deletion leaves empty too. */
  ghost predicate Emptied(st: Statement, t: Details) {
    st.OnDetails? ==>
      match st.detail
      case Sweep(VectorTable, id) => forall p | p in t.vectors :: p.memory != id
      case Sweep(ChunkTable, id) => forall p | p in t.chunks :: p.memory != id
      case Sweep(ProvenanceTable, id) => id !in t.provenance
      case Sweep(DerivationTable, id) => forall p | p in t.derivation :: p.child != id
      case Sweep(SourceTable, id) => forall s | s in t.sources :: s.memory != id
      case DestroyKeysFor(id) => forall k | k in t.keys :: t.keys[k] != Some(id)
      case DestroyKeys => t.keys == map[]
      case DeleteAttempts(id) => forall a | a in t.attempts :: a.memory != id
      case DeleteQueue(id) => forall k | k in t.work :: k.memory != id
      case _ => true
  }

  lemma {:induction false} ShrinkStep(db: Db, st: Statement)
    requires Shrinks(st) && Exec(db, st).Ran?
    ensures Within(Exec(db, st).db.details, db.details)
    ensures Emptied(st, Exec(db, st).db.details)
    ensures forall p | p in db.details.vectors && p !in Exec(db, st).db.details.vectors ::
      st == OnDetails(Sweep(VectorTable, p.memory))
    ensures forall k | k in db.details.work && k !in Exec(db, st).db.details.work :: st == OnDetails(DeleteQueue(k.memory))
  {
  }

  lemma {:induction false} EmptiedWithin(st: Statement, a: Details, b: Details)
    requires Within(a, b) && Emptied(st, b)
    ensures Emptied(st, a)
  {
  }

  lemma {:induction false} ShrinkRows(db: Db, st: Statement)
    requires Shrinks(st) && Exec(db, st).Ran?
    ensures forall m | Present(Exec(db, st).db, m) :: Present(db, m)
    ensures forall m | Present(db, m) && !Present(Exec(db, st).db, m) :: st.OnRows? && st.row.Tombstone? && st.row.id == m
    ensures st.OnRows? && st.row.Tombstone? ==> !Present(Exec(db, st).db, st.row.id)
  {
  }

  ghost predicate AllShrink(sts: seq<Statement>) {
    forall i | 0 <= i < |sts| :: Shrinks(sts[i])
  }

  /** What a whole list of deletions empties, keeps and kills. */
  lemma {:induction false} ShrinkAll(db: Db, sts: seq<Statement>)
    requires AllShrink(sts) && ExecAll(db, sts).Ran?
    ensures var end := ExecAll(db, sts).db;
            && Within(end.details, db.details)
            && (forall i | 0 <= i < |sts| :: Emptied(sts[i], end.details))
            && (forall m | Present(end, m) :: Present(db, m))
            && (forall m | Present(db, m) && !Present(end, m) :: exists i ::
                  0 <= i < |sts| && sts[i].OnRows? && sts[i].row.Tombstone? && sts[i].row.id == m)
            && (forall i | 0 <= i < |sts| && sts[i].OnRows? && sts[i].row.Tombstone? :: !Present(end, sts[i].row.id))
            && (forall p | p in db.details.vectors && p !in end.details.vectors ::
                  exists i :: 0 <= i < |sts| && sts[i] == OnDetails(Sweep(VectorTable, p.memory)))
            && (forall k | k in db.details.work && k !in end.details.work ::
                  exists i :: 0 <= i < |sts| && sts[i] == OnDetails(DeleteQueue(k.memory)))
    decreases |sts|
  {
    if sts != [] {
      assert Shrinks(sts[0]);
      ShrinkStep(db, sts[0]);
      ShrinkRows(db, sts[0]);
      var next := Exec(db, sts[0]).db;
      var rest := sts[1..];
      assert forall i | 0 <= i < |rest| :: rest[i] == sts[i + 1];
      ShrinkAll(next, rest);
      var end := ExecAll(next, rest).db;
      EmptiedWithin(sts[0], end.details, next.details);
      forall i | 0 <= i < |sts| ensures Emptied(sts[i], end.details) {
        if i > 0 { assert sts[i] == rest[i - 1]; }
      }
      forall m | Present(db, m) && !Present(end, m)
        ensures exists i :: 0 <= i < |sts| && sts[i].OnRows? && sts[i].row.Tombstone? && sts[i].row.id == m
      {
        if Present(next, m) {
          var i :| 0 <= i < |rest| && rest[i].OnRows? && rest[i].row.Tombstone? && rest[i].row.id == m;
          assert sts[i + 1] == rest[i];
        } else {
          assert sts[0].row.id == m;
        }
      }
      forall i | 0 <= i < |sts| && sts[i].OnRows? && sts[i].row.Tombstone? ensures !Present(end, sts[i].row.id) {
        if i > 0 { assert sts[i] == rest[i - 1]; }
      }
      forall p | p in db.details.vectors && p !in end.details.vectors
        ensures exists i :: 0 <= i < |sts| && sts[i] == OnDetails(Sweep(VectorTable, p.memory))
      {
        if p in next.details.vectors {
          var i :| 0 <= i < |rest| && rest[i] == OnDetails(Sweep(VectorTable, p.memory));
          assert sts[i + 1] == rest[i];
        } else {
          assert sts[0] == OnDetails(Sweep(VectorTable, p.memory));
        }
      }
      forall k | k in db.details.work && k !in end.details.work
        ensures exists i :: 0 <= i < |sts| && sts[i] == OnDetails(DeleteQueue(k.memory))
      {
        if k in next.details.work {
          var i :| 0 <= i < |rest| && rest[i] == OnDetails(DeleteQueue(k.memory));
          assert sts[i + 1] == rest[i];
        } else {
          assert sts[0] == OnDetails(DeleteQueue(k.memory));
        }
      }
    }
  }

  /** A batch that lays a tombstone also deletes everything kept beside that memory. */
  ghost predicate Thorough(sts: seq<Statement>) {
    forall i | 0 <= i < |sts| && sts[i].OnRows? && sts[i].row.Tombstone? :: ReachesAll(sts, sts[i].row.id)
  }

  ghost predicate ReachesAll(sts: seq<Statement>, id: MemoryId) {
    && (forall table: Table :: OnDetails(Sweep(table, id)) in sts)
    && (OnDetails(DestroyKeys) in sts || OnDetails(DestroyKeysFor(id)) in sts)
    && OnDetails(DeleteAttempts(id)) in sts
    && OnDetails(DeleteQueue(id)) in sts
  }

  /** No row beside the memory table names `m`. */
  ghost predicate Forgotten(t: Details, m: MemoryId) {
    && m !in t.provenance
    && (forall p | p in t.derivation :: p.child != m)
    && (forall s | s in t.sources :: s.memory != m)
    && (forall k | k in t.keys :: t.keys[k] != Some(m))
    && (forall p | p in t.chunks :: p.memory != m)
    && (forall p | p in t.vectors :: p.memory != m)
    && (forall k | k in t.work :: k.memory != m)
    && (forall a | a in t.attempts :: a.memory != m)
  }

  lemma {:induction false} AllEmptied(sts: seq<Statement>, t: Details, m: MemoryId)
    requires ReachesAll(sts, m)
    requires forall st | st in sts :: Emptied(st, t)
    ensures Forgotten(t, m)
  {
    assert Emptied(OnDetails(Sweep(VectorTable, m)), t);
    assert Emptied(OnDetails(Sweep(ChunkTable, m)), t);
    assert Emptied(OnDetails(Sweep(ProvenanceTable, m)), t);
    assert Emptied(OnDetails(Sweep(DerivationTable, m)), t);
    assert Emptied(OnDetails(Sweep(SourceTable, m)), t);
    assert Emptied(OnDetails(DestroyKeys), t) || Emptied(OnDetails(DestroyKeysFor(m)), t);
    assert Emptied(OnDetails(DeleteAttempts(m)), t);
    assert Emptied(OnDetails(DeleteQueue(m)), t);
  }

  lemma {:induction false} SurvivorsPresent(before: Db, after: Db)
    requires NoResidue(before) && Within(after.details, before.details)
    requires forall m | Present(before, m) && !Present(after, m) :: Forgotten(after.details, m)
    ensures NoResidue(after)
  {
    forall m | Present(before, m) ensures Present(after, m) || Forgotten(after.details, m) {
    }
  }

  lemma {:induction false} ThoroughLeavesNothing(db: Db, sts: seq<Statement>)
    requires NoResidue(db) && AllShrink(sts) && Thorough(sts) && ExecAll(db, sts).Ran?
    ensures NoResidue(ExecAll(db, sts).db)
  {
    ShrinkAll(db, sts);
    var end := ExecAll(db, sts).db;
    forall m | Present(db, m) && !Present(end, m) ensures Forgotten(end.details, m) {
      var i :| 0 <= i < |sts| && sts[i].OnRows? && sts[i].row.Tombstone? && sts[i].row.id == m;
      forall st | st in sts ensures Emptied(st, end.details) {
        var j :| 0 <= j < |sts| && sts[j] == st;
      }
      AllEmptied(sts, end.details, m);
    }
    SurvivorsPresent(db, end);
  }

  // ------------------------------------------- the lists an erasure stages

  ghost predicate Names(shells: seq<Shell>, id: MemoryId) {
    exists i :: 0 <= i < |shells| && shells[i].id == id
  }

  lemma {:induction false} SweepOneMembers(table: Table, shells: seq<Shell>)
    ensures forall st | st in SweepOne(table, shells) :: st.OnDetails? && st.detail.Sweep? && st.detail.table == table && Names(shells, st.detail.id)
    ensures forall i | 0 <= i < |shells| :: OnDetails(Sweep(table, shells[i].id)) in SweepOne(table, shells)
    decreases |shells|
  {
    if shells != [] {
      SweepOneMembers(table, shells[1..]);
      assert Names(shells, shells[0].id);
      forall id | Names(shells[1..], id) ensures Names(shells, id) {
        var i :| 0 <= i < |shells[1..]| && shells[1..][i].id == id;
        assert shells[i + 1].id == id;
      }
      forall i | 0 <= i < |shells| ensures OnDetails(Sweep(table, shells[i].id)) in SweepOne(table, shells) {
        if i > 0 { assert shells[i] == shells[1..][i - 1]; }
      }
    }
  }

  lemma {:induction false} SweepMembers(tables: seq<Table>, shells: seq<Shell>)
    ensures forall st | st in SweepStatements(tables, shells) :: st.OnDetails? && st.detail.Sweep? && Names(shells, st.detail.id)
    ensures forall table, i | table in tables && 0 <= i < |shells| :: OnDetails(Sweep(table, shells[i].id)) in SweepStatements(tables, shells)
    decreases |tables|
  {
    if tables != [] {
      SweepOneMembers(tables[0], shells);
      SweepMembers(tables[1..], shells);
      forall table, i | table in tables && 0 <= i < |shells|
        ensures OnDetails(Sweep(table, shells[i].id)) in SweepStatements(tables, shells)
      {
        assert table == tables[0] || table in tables[1..];
      }
    }
  }

  lemma {:induction false} DestroyMembers(shells: seq<Shell>)
    ensures forall st | st in DestroyStatements(shells) :: st.OnDetails? && st.detail.DestroyKeysFor?
    ensures forall i | 0 <= i < |shells| :: OnDetails(DestroyKeysFor(shells[i].id)) in DestroyStatements(shells)
    decreases |shells|
  {
    if shells != [] {
      DestroyMembers(shells[1..]);
      forall i | 0 <= i < |shells| ensures OnDetails(DestroyKeysFor(shells[i].id)) in DestroyStatements(shells) {
        if i > 0 { assert shells[i] == shells[1..][i - 1]; }
      }
    }
  }

  lemma {:induction false} MoveMembers(shells: seq<Shell>)
    ensures forall st | st in MoveStatements(shells) :: st.OnCounters? && (st.counter.DecrementLive? || st.counter.IncrementErased?)
    decreases |shells|
  {
    if shells != [] {
      MoveMembers(shells[1..]);
    }
  }

  lemma {:induction false} QueueMembers(shells: seq<Shell>)
    ensures forall st | st in QueueStatements(shells) :: st.OnDetails? && (st.detail.DeleteAttempts? || st.detail.DeleteQueue?)
    ensures forall st | st in QueueStatements(shells) && st.detail.DeleteQueue? :: Names(shells, st.detail.id)
    ensures forall i | 0 <= i < |shells| :: OnDetails(DeleteAttempts(shells[i].id)) in QueueStatements(shells)
                                            && OnDetails(DeleteQueue(shells[i].id)) in QueueStatements(shells)
    decreases |shells|
  {
    if shells != [] {
      QueueMembers(shells[1..]);
      assert Names(shells, shells[0].id);
      forall id | Names(shells[1..], id) ensures Names(shells, id) {
        var i :| 0 <= i < |shells[1..]| && shells[1..][i].id == id;
        assert shells[i + 1].id == id;
      }
      forall i | 0 <= i < |shells| ensures OnDetails(DeleteAttempts(shells[i].id)) in QueueStatements(shells)
                                            && OnDetails(DeleteQueue(shells[i].id)) in QueueStatements(shells) {
        if i > 0 { assert shells[i] == shells[1..][i - 1]; }
      }
    }
  }

  lemma {:induction false} TombstoneMembers(shells: seq<Shell>, now: nat)
    ensures |TombstoneStatements(shells, now)| == |shells|
    ensures forall i | 0 <= i < |shells| ::
      TombstoneStatements(shells, now)[i] == OnRows(Tombstone(shells[i].id, now, BlankRecord(shells[i], now)))
    decreases |shells|
  {
    if shells != [] {
      TombstoneMembers(shells[1..], now);
    }
  }

  /** The shape every destructive batch has. */
  ghost predicate Destructive(batch: Batch, head: seq<Statement>, keys: seq<Statement>, shells: seq<Shell>, now: nat,
                              tail: seq<Statement>, marks: bool) {
    && batch == BatchOf(head, keys, shells, now, tail, marks)
    && head == SweepStatements(TABLES, shells)
    && (keys == DestroyStatements(shells) || keys == [OnDetails(DestroyKeys)])
    && (forall st | st in tail :: Shrinks(st) && Gentle(st) && Attaches(st) == None && !st.OnDetails? && !st.OnCounters?)
  }

  /** The statements of a batch come from its six parts. */
  lemma {:induction false} BatchParts(batch: Batch, head: seq<Statement>, keys: seq<Statement>, shells: seq<Shell>, now: nat,
                   tail: seq<Statement>, marks: bool)
    requires Destructive(batch, head, keys, shells, now, tail, marks)
    ensures forall st | st in batch.statements ::
      (st in head || st in keys || st in MoveStatements(shells)
       || st in TombstoneStatements(shells, now) || st in QueueStatements(shells) || st in tail)
    ensures forall st | st in head || st in keys || st in TombstoneStatements(shells, now) || st in QueueStatements(shells) || st in tail ::
      st in batch.statements
  {
    assert batch.statements == head + keys + MoveStatements(shells) + TombstoneStatements(shells, now) + QueueStatements(shells) + tail;
  }

  lemma {:induction false} PartsShrink(head: seq<Statement>, keys: seq<Statement>, shells: seq<Shell>, now: nat, tail: seq<Statement>, st: Statement)
    requires head == SweepStatements(TABLES, shells)
    requires keys == DestroyStatements(shells) || keys == [OnDetails(DestroyKeys)]
    requires forall x | x in tail :: Shrinks(x) && Gentle(x) && Attaches(x) == None && !x.OnDetails? && !x.OnCounters?
    requires st in head || st in keys || st in MoveStatements(shells)
          || st in TombstoneStatements(shells, now) || st in QueueStatements(shells) || st in tail
    ensures Shrinks(st)
    ensures st.OnRows? && st.row.Tombstone? ==> Names(shells, st.row.id)
    ensures st.OnDetails? && (st.detail.Sweep? || st.detail.DeleteQueue?) ==> Names(shells, st.detail.id)
  {
    SweepMembers(TABLES, shells);
    DestroyMembers(shells);
    MoveMembers(shells);
    QueueMembers(shells);
    TombstoneMembers(shells, now);
    if st in TombstoneStatements(shells, now) {
      var i :| 0 <= i < |shells| && TombstoneStatements(shells, now)[i] == st;
      assert shells[i].id == st.row.id;
    }
  }

  lemma {:induction false} TableListed(table: Table)
    ensures table in TABLES
  {
    assert TABLES[0] == VectorTable && TABLES[1] == ChunkTable && TABLES[2] == ProvenanceTable
        && TABLES[3] == DerivationTable && TABLES[4] == SourceTable;
  }

  lemma {:induction false} ShellsReached(sts: seq<Statement>, shells: seq<Shell>, j: nat)
    requires j < |shells|
    requires forall st | st in SweepStatements(TABLES, shells) :: st in sts
    requires forall st | st in QueueStatements(shells) :: st in sts
    requires OnDetails(DestroyKeys) in sts || forall st | st in DestroyStatements(shells) :: st in sts
    ensures ReachesAll(sts, shells[j].id)
  {
    SweepMembers(TABLES, shells);
    forall table: Table ensures OnDetails(Sweep(table, shells[j].id)) in sts {
      TableListed(table);
      assert OnDetails(Sweep(table, shells[j].id)) in SweepStatements(TABLES, shells);
    }
    DestroyMembers(shells);
    QueueMembers(shells);
    assert OnDetails(DestroyKeysFor(shells[j].id)) in DestroyStatements(shells);
    assert OnDetails(DeleteAttempts(shells[j].id)) in QueueStatements(shells);
    assert OnDetails(DeleteQueue(shells[j].id)) in QueueStatements(shells);
  }

  lemma {:induction false} BatchShrinks(batch: Batch, head: seq<Statement>, keys: seq<Statement>, shells: seq<Shell>, now: nat,
                        tail: seq<Statement>, marks: bool)
    requires Destructive(batch, head, keys, shells, now, tail, marks)
    ensures AllShrink(batch.statements)
    ensures forall st | st in batch.statements && st.OnRows? && st.row.Tombstone? :: Names(shells, st.row.id)
    ensures forall st | st in batch.statements && st.OnDetails? && (st.detail.Sweep? || st.detail.DeleteQueue?) ::
      Names(shells, st.detail.id)
  {
    BatchParts(batch, head, keys, shells, now, tail, marks);
    forall st | st in batch.statements
      ensures Shrinks(st) && (st.OnRows? && st.row.Tombstone? ==> Names(shells, st.row.id))
        && (st.OnDetails? && (st.detail.Sweep? || st.detail.DeleteQueue?) ==> Names(shells, st.detail.id))
    {
      PartsShrink(head, keys, shells, now, tail, st);
    }
  }

  /** Every memory a destructive batch kills is one whose rows it deletes, and one it was given. */
  lemma {:induction false} BatchIsThorough(batch: Batch, head: seq<Statement>, keys: seq<Statement>, shells: seq<Shell>, now: nat,
                        tail: seq<Statement>, marks: bool)
    requires Destructive(batch, head, keys, shells, now, tail, marks)
    ensures AllShrink(batch.statements) && Thorough(batch.statements)
    ensures forall st | st in batch.statements && st.OnRows? && st.row.Tombstone? :: Names(shells, st.row.id)
    ensures forall st | st in batch.statements && st.OnDetails? && (st.detail.Sweep? || st.detail.DeleteQueue?) ::
      Names(shells, st.detail.id)
    ensures forall i | 0 <= i < |shells| :: OnRows(Tombstone(shells[i].id, now, BlankRecord(shells[i], now))) in batch.statements
  {
    var sts := batch.statements;
    BatchShrinks(batch, head, keys, shells, now, tail, marks);
    BatchParts(batch, head, keys, shells, now, tail, marks);
    forall i | 0 <= i < |sts| && sts[i].OnRows? && sts[i].row.Tombstone? ensures ReachesAll(sts, sts[i].row.id) {
      var j :| 0 <= j < |shells| && shells[j].id == sts[i].row.id;
      assert keys[0] in keys;
      ShellsReached(sts, shells, j);
    }
    TombstoneMembers(shells, now);
    forall i | 0 <= i < |shells| ensures OnRows(Tombstone(shells[i].id, now, BlankRecord(shells[i], now))) in sts {
      assert TombstoneStatements(shells, now)[i] in TombstoneStatements(shells, now);
    }
  }
}
