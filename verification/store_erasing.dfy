/** Erasing one memory, and draining a scope: what the transactions do to the tables
    and to the durable record of the erasure. */
module StoreErasing {

  import opened Wrappers
  import opened Succession
  import opened StoreTables
  import opened StoreInvariants
  import opened StoreStaging
  import opened StoreWorld
  import opened StoreAccounting
  import opened StoreResidue
  import opened StoreCounters
  import opened StoreEmbedding
  import opened StoreOperations

  /** Shells read from rows that were there: kind and creation never change since. */
  ghost predicate ShellsTrue(db: Db, shells: seq<Shell>) {
    forall i | 0 <= i < |shells| ::
      shells[i].id in db.memory && shells[i].kind == db.memory[shells[i].id].kind && shells[i].created == db.memory[shells[i].id].created
  }

  lemma {:induction false} ShellsStayTrue(a: Db, b: Db, shells: seq<Shell>)
    requires ShellsTrue(a, shells) && Precedes(a, b)
    ensures ShellsTrue(b, shells)
  {
  }

  ghost predicate ListedAlive(moments: seq<Db>, ids: seq<MemoryId>, i: nat)
    requires |moments| == |ids|
  {
    i < |ids| && Present(moments[i], ids[i])
  }

  /** What the lookups of a cascade return: each listed memory once, if it was still there. */
  lemma {:induction false} ShellsAtNames(moments: seq<Db>, ids: seq<MemoryId>)
    requires |moments| == |ids|
    ensures forall m | Names(ShellsAt(moments, ids), m) :: exists i: nat :: ListedAlive(moments, ids, i) && ids[i] == m
    ensures forall m | Names(ShellsAt(moments, ids), m) :: m in ids
    ensures forall i: nat | ListedAlive(moments, ids, i) :: Names(ShellsAt(moments, ids), ids[i])
    ensures (forall i, j | 0 <= i < j < |ids| :: ids[i] != ids[j]) ==> Distinct(ShellsAt(moments, ids))
    decreases |ids|
  {
    if ids != [] {
      var rest := ShellsAt(moments[1..], ids[1..]);
      var all := ShellsAt(moments, ids);
      ShellsAtNames(moments[1..], ids[1..]);
      var head := if Present(moments[0], ids[0]) then [ShellOf(moments[0], ids[0])] else [];
      assert all == head + rest;
      forall m | Names(all, m) ensures exists i: nat :: ListedAlive(moments, ids, i) && ids[i] == m {
        var k :| 0 <= k < |all| && all[k].id == m;
        if k < |head| {
          assert ListedAlive(moments, ids, 0);
        } else {
          assert rest[k - |head|].id == m;
          assert Names(rest, m);
          var i: nat :| ListedAlive(moments[1..], ids[1..], i) && ids[1..][i] == m;
          assert moments[1..][i] == moments[i + 1] && ids[1..][i] == ids[i + 1];
          assert ListedAlive(moments, ids, i + 1);
        }
      }
      forall i: nat | ListedAlive(moments, ids, i) ensures Names(all, ids[i]) {
        if i == 0 {
          assert all[0].id == ids[0];
        } else {
          assert ListedAlive(moments[1..], ids[1..], i - 1);
          var k :| 0 <= k < |rest| && rest[k].id == ids[i];
          assert all[k + |head|] == rest[k];
        }
      }
      if forall i, j | 0 <= i < j < |ids| :: ids[i] != ids[j] {
        forall i, j | 0 <= i < j < |ids[1..]| ensures ids[1..][i] != ids[1..][j] {
          assert ids[i + 1] != ids[j + 1];
        }
        forall a, b | 0 <= a < b < |all| ensures all[a].id != all[b].id {
          assert all[b] == rest[b - |head|];
          if a < |head| {
            assert Names(rest, all[b].id);
            var i: nat :| ListedAlive(moments[1..], ids[1..], i) && ids[1..][i] == all[b].id;
            assert ids[0] != ids[i + 1];
          } else {
            assert all[a] == rest[a - |head|];
          }
        }
      }
    }
  }

  lemma {:induction false} ShellsAtTrue(moments: seq<Db>, ids: seq<MemoryId>, db: Db)
    requires |moments| == |ids| && forall i | 0 <= i < |moments| :: Precedes(moments[i], db)
    ensures ShellsTrue(db, ShellsAt(moments, ids))
    decreases |ids|
  {
    if ids != [] {
      ShellsAtTrue(moments[1..], ids[1..], db);
    }
  }

  lemma {:induction false} ErasureShellsTrue(read: Db, target: MemoryId, moments: seq<Db>, ids: seq<MemoryId>, db: Db)
    requires target in read.memory && |moments| == |ids| && Precedes(read, db)
    requires forall i | 0 <= i < |moments| :: Precedes(moments[i], db)
    ensures ShellsTrue(db, ErasureShells(read, target, moments, ids))
  {
    ShellsAtTrue(moments, ids, db);
    var rest, shells := ShellsAt(moments, ids), ErasureShells(read, target, moments, ids);
    assert shells == [ShellOf(read, target)] + rest;
    assert RowPrecedes(read.memory[target], db.memory[target]);
    forall i | 0 <= i < |shells| ensures
      shells[i].id in db.memory && shells[i].kind == db.memory[shells[i].id].kind && shells[i].created == db.memory[shells[i].id].created
    {
      assert i > 0 ==> shells[i] == rest[i - 1];
    }
  }

  /** A destructive batch with its parts, so that lemmas need not repeat them. */
  datatype Plan = Plan(head: seq<Statement>, keys: seq<Statement>, shells: seq<Shell>, now: nat, tail: seq<Statement>, marks: bool)

  function Built(p: Plan): Batch {
    BatchOf(p.head, p.keys, p.shells, p.now, p.tail, p.marks)
  }

  ghost predicate Proper(p: Plan) {
    Destructive(Built(p), p.head, p.keys, p.shells, p.now, p.tail, p.marks)
    && (forall i | 0 <= i < |p.tail| :: Honest(p.tail[i], if p.marks && i == 0 then Marking else Uncounted))
  }

  function ErasePlan(target: MemoryId, shells: seq<Shell>, cascade: bool, now: nat): (p: Plan)
    ensures Built(p) == EraseBatch(target, shells, cascade, now)
  {
    Plan(SweepStatements(TABLES, shells), DestroyStatements(shells), shells, now,
         [OnRows(MarkDerived(target)), OnClaims(if cascade then EraseClaims(target) else MarkClaims(target))], true)
  }

  function DrainPlan(shells: seq<Shell>, now: nat): (p: Plan)
    ensures Built(p) == DrainBatch(shells, now)
  {
    Plan(SweepStatements(TABLES, shells), [OnDetails(DestroyKeys)], shells, now,
         [OnClaims(EraseScopeClaims), OnClaims(ClearClaimSources)], false)
  }

  lemma {:induction false} ErasePlanProper(target: MemoryId, shells: seq<Shell>, cascade: bool, now: nat)
    ensures Proper(ErasePlan(target, shells, cascade, now))
  {
    var plan := ErasePlan(target, shells, cascade, now);
    forall st | st in plan.tail ensures st == plan.tail[0] || st == plan.tail[1] {
    }
  }

  lemma {:induction false} DrainPlanProper(shells: seq<Shell>, now: nat)
    ensures Proper(DrainPlan(shells, now))
  {
    var plan := DrainPlan(shells, now);
    forall st | st in plan.tail ensures st == plan.tail[0] || st == plan.tail[1] {
    }
  }

  lemma {:induction false} PlansProper(target: MemoryId, shells: seq<Shell>, cascade: bool, now: nat)
    ensures Proper(ErasePlan(target, shells, cascade, now)) && Proper(DrainPlan(shells, now))
  {
    ErasePlanProper(target, shells, cascade, now);
    DrainPlanProper(shells, now);
  }

  // ------------------------------------------------- what a batch may touch

  lemma {:induction false} BatchMember(p: Plan, i: nat)
    requires Proper(p) && i < |Built(p).statements|
    ensures var st := Built(p).statements[i];
            st in p.head || st in p.keys || st in MoveStatements(p.shells)
            || st in TombstoneStatements(p.shells, p.now) || st in QueueStatements(p.shells) || st in p.tail
  {
    BatchParts(Built(p), p.head, p.keys, p.shells, p.now, p.tail, p.marks);
  }

  lemma {:induction false} BatchSound(db: Db, p: Plan)
    requires Proper(p) && ShellsTrue(db, p.shells)
    ensures AllSound(db, Built(p).statements)
  {
    forall i | 0 <= i < |Built(p).statements| ensures Sound(db, Built(p).statements[i]) {
      BatchMember(p, i);
      MemberSound(db, p, Built(p).statements[i]);
    }
  }

  lemma {:induction false} MemberSound(db: Db, p: Plan, st: Statement)
    requires Proper(p) && ShellsTrue(db, p.shells)
    requires st in p.head || st in p.keys || st in MoveStatements(p.shells)
             || st in TombstoneStatements(p.shells, p.now) || st in QueueStatements(p.shells) || st in p.tail
    ensures Sound(db, st)
  {
    SweepMembers(TABLES, p.shells);
    DestroyMembers(p.shells);
    MoveMembers(p.shells);
    QueueMembers(p.shells);
    TombstoneMembers(p.shells, p.now);
    if st in TombstoneStatements(p.shells, p.now) {
      var j :| 0 <= j < |p.shells| && TombstoneStatements(p.shells, p.now)[j] == st;
      assert st == OnRows(Tombstone(p.shells[j].id, p.now, BlankRecord(p.shells[j], p.now)));
    }
  }

  lemma {:induction false} BatchFamiliar(p: Plan)
    requires Proper(p)
    ensures Familiar(Built(p).statements)
    ensures forall i | 0 <= i < |Built(p).statements| :: Shrinks(Built(p).statements[i])
  {
    BatchIsThorough(Built(p), p.head, p.keys, p.shells, p.now, p.tail, p.marks);
    forall i | 0 <= i < |Built(p).statements| ensures !(Built(p).statements[i].OnRows? && Built(p).statements[i].row.InsertMemory?) {
      assert Shrinks(Built(p).statements[i]);
    }
  }

  lemma {:induction false} ShrinkKeepsModels(db: Db, sts: seq<Statement>)
    requires AllShrink(sts) && ExecAll(db, sts).Ran?
    ensures ExecAll(db, sts).db.models == db.models
    decreases |sts|
  {
    if sts != [] {
      assert Shrinks(sts[0]);
      assert Exec(db, sts[0]).db.models == db.models;
      assert forall i | 0 <= i < |sts[1..]| :: sts[1..][i] == sts[i + 1];
      ShrinkKeepsModels(Exec(db, sts[0]).db, sts[1..]);
    }
  }

  /** Rows go only with the memory they belonged to, and every shell's memory goes. */
  ghost predicate Spares(db: Db, shells: seq<Shell>, end: Db) {
    && Within(end.details, db.details)
    && (forall m: MemoryId, r: Revision | Present(end, m) && HasVector(db, m, r) :: HasVector(end, m, r))
    && (forall m: MemoryId, r: Revision | Present(end, m) && HasWork(db, m, r) :: HasWork(end, m, r))
    && (forall m | Present(end, m) :: Present(db, m))
    && (forall m | Names(shells, m) :: !Present(end, m))
    && (forall m | Present(db, m) && !Present(end, m) :: Names(shells, m))
  }

  /** A list that deletes the rows of its shells only, and buries them all. */
  ghost predicate Buries(sts: seq<Statement>, shells: seq<Shell>) {
    && AllShrink(sts)
    && (forall st | st in sts && st.OnRows? && st.row.Tombstone? :: Names(shells, st.row.id))
    && (forall st | st in sts && st.OnDetails? && (st.detail.Sweep? || st.detail.DeleteQueue?) :: Names(shells, st.detail.id))
    && (forall m | Names(shells, m) :: exists i :: 0 <= i < |sts| && sts[i].OnRows? && sts[i].row.Tombstone? && sts[i].row.id == m)
  }

  lemma {:induction false} BatchBuries(p: Plan)
    requires Proper(p)
    ensures Buries(Built(p).statements, p.shells) && Thorough(Built(p).statements)
  {
    var sts := Built(p).statements;
    BatchIsThorough(Built(p), p.head, p.keys, p.shells, p.now, p.tail, p.marks);
    forall m | Names(p.shells, m)
      ensures exists i :: 0 <= i < |sts| && sts[i].OnRows? && sts[i].row.Tombstone? && sts[i].row.id == m
    {
      var j :| 0 <= j < |p.shells| && p.shells[j].id == m;
      var st := OnRows(Tombstone(p.shells[j].id, p.now, BlankRecord(p.shells[j], p.now)));
      assert st in sts;
      var i :| 0 <= i < |sts| && sts[i] == st;
    }
  }

  lemma {:induction false} BurySpares(db: Db, sts: seq<Statement>, shells: seq<Shell>)
    requires Buries(sts, shells) && ExecAll(db, sts).Ran?
    ensures Spares(db, shells, ExecAll(db, sts).db) && ExecAll(db, sts).db.models == db.models
  {
    ShrinkAll(db, sts);
    ShrinkKeepsModels(db, sts);
    var end := ExecAll(db, sts).db;
    forall m: MemoryId, r: Revision | Present(end, m) && HasVector(db, m, r) ensures HasVector(end, m, r) {
      var v :| v in db.details.vectors && v.memory == m && v.revision == r;
      assert OnDetails(Sweep(VectorTable, m)) !in sts;
      assert v in end.details.vectors;
    }
    forall m: MemoryId, r: Revision | Present(end, m) && HasWork(db, m, r) ensures HasWork(end, m, r) {
      var k :| k in db.details.work && k.memory == m && k.revision == r;
      assert OnDetails(DeleteQueue(m)) !in sts;
      assert k in end.details.work;
    }
    forall m | Present(db, m) && !Present(end, m) ensures Names(shells, m) {
      var i :| 0 <= i < |sts| && sts[i].OnRows? && sts[i].row.Tombstone? && sts[i].row.id == m;
      assert sts[i] in sts;
    }
  }

  /** An erasure batch, however stale its shells, keeps the invariant. */
  lemma {:induction false} BatchKeeps(db: Db, p: Plan)
    requires Good(db) && Proper(p) && ShellsTrue(db, p.shells) && ExecAll(db, Built(p).statements).Ran?
    ensures var end := ExecAll(db, Built(p).statements).db; Good(end) && Onward(db, end)
  {
    var sts := Built(p).statements;
    BatchSound(db, p);
    AllKeep(db, sts);
    BatchFamiliar(p);
    FamiliarAll(db, sts);
    BatchBuries(p);
    BurySpares(db, sts, p.shells);
    ThoroughLeavesNothing(db, sts);
    BatchCovers(db, ExecAll(db, sts).db);
  }

  lemma {:induction false} BatchCovers(db: Db, end: Db)
    requires WorkNamed(db) && SomeActive(db)
    requires end.memory.Keys == db.memory.Keys
    requires end.models == db.models && Within(end.details, db.details)
    requires forall m: MemoryId, r: Revision | Present(end, m) && HasVector(db, m, r) :: HasVector(end, m, r)
    requires forall m: MemoryId, r: Revision | Present(end, m) && HasWork(db, m, r) :: HasWork(end, m, r)
    requires forall m | Present(end, m) :: Present(db, m)
    ensures WorkNamed(end) && SomeActive(end) && KeepsCover(db, end) && NewcomersCovered(db, end)
  {
    if end.models != map[] {
      var r: Revision :| IsActive(db, r);
      assert IsActive(end, r);
    }
  }

  // ------------------------------------------------- every statement counted right

  lemma {:induction false} SweepsEvery(shells: seq<Shell>)
    ensures Every(SweepStatements(TABLES, shells), Derivative)
  {
    SweepMembers(TABLES, shells);
  }

  lemma {:induction false} KeysEvery(shells: seq<Shell>)
    ensures Every(DestroyStatements(shells), Key)
  {
    DestroyMembers(shells);
  }

  lemma {:induction false} MovesEvery(shells: seq<Shell>)
    ensures Every(MoveStatements(shells), Uncounted)
  {
    MoveMembers(shells);
  }

  lemma {:induction false} QueueEvery(shells: seq<Shell>)
    ensures Every(QueueStatements(shells), Derivative)
  {
    QueueMembers(shells);
  }

  lemma {:induction false} TombstonesEvery(shells: seq<Shell>, now: nat)
    ensures Every(TombstoneStatements(shells, now), Tombstoned)
  {
    TombstoneMembers(shells, now);
    var tombs := TombstoneStatements(shells, now);
    forall st | st in tombs ensures Honest(st, Tombstoned) {
      var j :| 0 <= j < |shells| && tombs[j] == st;
    }
  }

  /** Each statement of the batch carries the tag its row count is for. */
  lemma {:induction false} BatchHonest(p: Plan)
    requires Proper(p)
    ensures AllHonest(Built(p).statements, Built(p).counts, 0)
  {
    SweepsEvery(p.shells);
    KeysEvery(p.shells);
    MovesEvery(p.shells);
    QueueEvery(p.shells);
    TombstonesEvery(p.shells, p.now);
    assert Every([OnDetails(DestroyKeys)], Key);
    PartsHonest(p.head, p.keys, MoveStatements(p.shells), TombstoneStatements(p.shells, p.now), QueueStatements(p.shells),
                p.tail, p.marks, Built(p).counts);
  }

  ghost predicate Every(sts: seq<Statement>, tag: Tag) {
    forall st | st in sts :: Honest(st, tag)
  }

  lemma {:induction false} PartsHonest(head: seq<Statement>, keys: seq<Statement>, moves: seq<Statement>, tombs: seq<Statement>,
                    queue: seq<Statement>, tail: seq<Statement>, marks: bool, counts: Counts)
    requires Every(head, Derivative) && Every(keys, Key) && Every(moves, Uncounted) && Every(tombs, Tombstoned) && Every(queue, Derivative)
    requires forall i | 0 <= i < |tail| :: Honest(tail[i], if marks && i == 0 then Marking else Uncounted)
    requires var k := |head| + |keys|;
             var t := k + |moves|;
             var q := t + |tombs|;
             counts == Counts(Range(0, |head|), Range(|head|, k), Range(q, q + |queue|), Range(t, q),
                              if marks then Some(q + |queue|) else None)
    ensures AllHonest(head + keys + moves + tombs + queue + tail, counts, 0)
  {
    var k := |head| + |keys|;
    var t := k + |moves|;
    var q := t + |tombs|;
    var e := q + |queue|;
    var sts := head + keys + moves + tombs + queue + tail;
    forall i | 0 <= i < |sts| ensures Honest(sts[i], TagAt(counts, 0 + i)) {
      if i < |head| {
        assert sts[i] == head[i];
      } else if i < k {
        assert sts[i] == keys[i - |head|];
      } else if i < t {
        assert sts[i] == moves[i - k];
      } else if i < q {
        assert sts[i] == tombs[i - t];
      } else if i < e {
        assert sts[i] == queue[i - q];
      } else {
        assert sts[i] == tail[i - e];
      }
    }
  }

  /** What a batch destroyed is never negative, and keys are among the derivatives. */
  lemma {:induction false} DestroyedSane(db: Db, p: Plan)
    requires Proper(p) && ExecAll(db, Built(p).statements).Ran?
    ensures var gone := Destroyed(db, ExecAll(db, Built(p).statements).db);
            0 <= gone.keys <= gone.derivatives && 0 <= gone.memories
  {
    BatchBuries(p);
    BurySpares(db, Built(p).statements, p.shells);
    SparedSane(db, p.shells, ExecAll(db, Built(p).statements).db);
  }

  lemma {:induction false} SparedSane(db: Db, shells: seq<Shell>, end: Db)
    requires Spares(db, shells, end)
    ensures 0 <= Destroyed(db, end).keys <= Destroyed(db, end).derivatives && 0 <= Destroyed(db, end).memories
  {
    FewerRows(end.details, db.details);
    forall m | m in PresentIds(end) ensures m in PresentIds(db) {
      assert Present(end, m);
    }
    SubsetSize(PresentIds(end), PresentIds(db));
  }

  lemma {:induction false} SubsetSize<T>(a: set<T>, b: set<T>)
    requires a <= b
    ensures |a| <= |b|
  {
    assert |b| == |a| + |b - a| by { assert b == a + (b - a); }
  }

  lemma {:induction false} FewerRows(a: Details, b: Details)
    requires Within(a, b)
    ensures |a.keys| <= |b.keys| && DetailRows(b) - DetailRows(a) >= |b.keys| - |a.keys|
  {
    SubsetSize(a.provenance, b.provenance);
    SubsetSize(a.derivation, b.derivation);
    SubsetSize(a.sources, b.sources);
    SubsetSize(a.chunks, b.chunks);
    SubsetSize(a.vectors, b.vectors);
    SubsetSize(a.attempts, b.attempts);
    SubsetSize(a.keys.Keys, b.keys.Keys);
    SubsetSize(a.work.Keys, b.work.Keys);
    assert |a.keys| == |a.keys.Keys| && |b.keys| == |b.keys.Keys|;
    assert |a.work| == |a.work.Keys| && |b.work| == |b.work.Keys|;
  }

  // ------------------------------------------------------ whole transactions

  function NewReceipt(operation: Operation): Receipt {
    Receipt(operation, true, false)
  }

  /** `r` is `q` after a bare batch and its accounts. */
  ghost predicate Between(q: Progress, r: Progress, bare: Outcome, operation: Operation)
    requires q.Running? && bare.Ran?
  {
    && r.Running? && r.db == bare.db && r.audit.receipts == q.audit.receipts
    && r.audit.journal == Journaled(q.audit.journal, operation, Destroyed(q.db, bare.db))
  }

  /** A batch between a first and a last line. */
  lemma {:induction false} Bracketed(p: Progress, open: Line, batch: Plan, operation: Operation, close: Line)
    requires p.Running? && Proper(batch)
    ensures var lines := [open] + AccountedBatch(Built(batch).statements, Built(batch).counts, operation) + [close];
            var q := ExecLine(p, open);
            if q.Failed? then ExecLines(p, lines).Failed?
            else
              var bare := ExecAll(q.db, Built(batch).statements);
              if bare.Abort? then ExecLines(p, lines).Failed?
              else exists r: Progress :: Between(q, r, bare, operation) && ExecLines(p, lines) == ExecLine(r, close)
  {
    var body := AccountedBatch(Built(batch).statements, Built(batch).counts, operation);
    ExecLinesAppend(p, [open] + body, [close]);
    ExecLinesAppend(p, [open], body);
    SingleLine(p, open);
    var q := ExecLine(p, open);
    if q.Running? {
      BatchHonest(batch);
      AccountedRuns(q, Built(batch).statements, Built(batch).counts, operation);
      var r := ExecLines(q, body);
      if r.Running? {
        SingleLine(r, close);
      }
    }
  }

  lemma {:induction false} EraseEnds(p: Progress, q: Progress, r: Progress, end: Progress, target: MemoryId)
    requires p.Running? && q.Running? && r.Running?
    requires q == ExecNote(p.db, p.audit, p.changes, InsertReceipt(OneMemory(target), EraseMemory(target)))
    requires r.audit.receipts == q.audit.receipts
    requires end == ExecNote(r.db, r.audit, r.changes, MarkReady(OneMemory(target)))
    ensures OneMemory(target) !in p.audit.receipts && Present(p.db, target)
    ensures forall t | t in p.audit.receipts :: p.audit.receipts[t].operation != EraseMemory(target)
    ensures q.db == p.db && q.audit.journal == p.audit.journal && end.Running? && end.db == r.db
    ensures end.audit == Audit(p.audit.receipts[OneMemory(target) := NewReceipt(EraseMemory(target))], r.audit.journal)
  {
  }

  /** The transaction that erases one memory: it commits only for a memory that is
      still there and has no receipt, and then the receipt is ready and the journal
      says what went. */
  lemma {:induction false} EraseRuns(p: Progress, target: MemoryId, shells: seq<Shell>, cascade: bool, now: nat)
    requires p.Running?
    ensures var end := ExecLines(p, EraseLines(target, shells, cascade, now));
            var bare := ExecAll(p.db, EraseBatch(target, shells, cascade, now).statements);
            end.Running? ==>
              && OneMemory(target) !in p.audit.receipts && Present(p.db, target)
              && (forall t | t in p.audit.receipts :: p.audit.receipts[t].operation != EraseMemory(target))
              && bare.Ran? && end.db == bare.db
              && end.audit == Audit(p.audit.receipts[OneMemory(target) := NewReceipt(EraseMemory(target))],
                                    Journaled(p.audit.journal, EraseMemory(target), Destroyed(p.db, bare.db)))
  {
    var plan := ErasePlan(target, shells, cascade, now);
    PlansProper(target, shells, cascade, now);
    var open, close := Note(InsertReceipt(OneMemory(target), EraseMemory(target))), Note(MarkReady(OneMemory(target)));
    Bracketed(p, open, plan, EraseMemory(target), close);
    var end := ExecLines(p, EraseLines(target, shells, cascade, now));
    if end.Running? {
      var q := ExecLine(p, open);
      var r :| Between(q, r, ExecAll(q.db, Built(plan).statements), EraseMemory(target)) && end == ExecLine(r, close);
      EraseEnds(p, q, r, end, target);
    }
  }

  /** The receipt of the scope operation after one drain. */
  function Drained(receipts: map<Target, Receipt>, operation: Operation, emptied: bool): map<Target, Receipt> {
    if WholeScope in receipts && receipts[WholeScope].operation == operation && emptied then
      receipts[WholeScope := receipts[WholeScope].(ready := true)]
    else receipts
  }

  /** One drain: it commits only while its operation is still draining, and it makes the
      operation ready exactly when it leaves the scope empty. */
  lemma {:induction false} DrainRuns(p: Progress, operation: Operation, shells: seq<Shell>, now: nat)
    requires p.Running?
    ensures var end := ExecLines(p, DrainLines(operation, shells, now));
            var bare := ExecAll(p.db, DrainBatch(shells, now).statements);
            if StillDrains(p.audit.receipts, operation) && bare.Ran?
            then
              && end.Running? && end.db == bare.db
              && end.audit == Audit(Drained(p.audit.receipts, operation, ScopeEmpty(bare.db)),
                                    Journaled(p.audit.journal, operation, Destroyed(p.db, bare.db)))
              && (end.changes == 1 <==> WholeScope in p.audit.receipts && ScopeEmpty(bare.db))
            else end.Failed?
  {
    PlansProper(0, shells, false, now);
    var open, close := Note(StillDraining(operation)), Note(MarkReadyIfEmpty(operation));
    Bracketed(p, open, DrainPlan(shells, now), operation, close);
    var q := ExecLine(p, open);
    StillOpens(p, operation, q);
    var bare := ExecAll(p.db, DrainBatch(shells, now).statements);
    if q.Running? && bare.Ran? {
      var end := ExecLines(p, DrainLines(operation, shells, now));
      var r :| Between(q, r, bare, operation) && end == ExecLine(r, close);
      DrainEnds(p, r, operation, end);
    }
  }

  predicate StillDrains(receipts: map<Target, Receipt>, operation: Operation) {
    WholeScope in receipts ==> receipts[WholeScope].operation == operation && !receipts[WholeScope].ready
  }

  lemma {:induction false} StillOpens(p: Progress, operation: Operation, q: Progress)
    requires p.Running? && q == ExecNote(p.db, p.audit, p.changes, StillDraining(operation))
    ensures q.Running? <==> StillDrains(p.audit.receipts, operation)
    ensures q.Running? ==> q.db == p.db && q.audit == p.audit
  {
  }

  lemma {:induction false} DrainEnds(p: Progress, r: Progress, operation: Operation, end: Progress)
    requires p.Running? && r.Running? && r.audit.receipts == p.audit.receipts && StillDrains(p.audit.receipts, operation)
    requires end == ExecNote(r.db, r.audit, r.changes, MarkReadyIfEmpty(operation))
    ensures end.Running? && end.db == r.db
    ensures end.audit == Audit(Drained(p.audit.receipts, operation, ScopeEmpty(r.db)), r.audit.journal)
    ensures end.changes == 1 <==> WholeScope in p.audit.receipts && ScopeEmpty(r.db)
  {
  }

  /** A new operation over the whole scope replaces a delivered receipt, and only that. */
  function StartLines(serial: nat): seq<Line> {
    [Note(DropDelivered), Note(InsertReceipt(WholeScope, EraseScope(serial)))]
  }

  lemma {:induction false} StartRuns(p: Progress, serial: nat)
    requires p.Running?
    ensures var end := ExecLines(p, StartLines(serial));
            end.Running? ==>
              && end.db == p.db
              && (WholeScope in p.audit.receipts ==> p.audit.receipts[WholeScope].delivered)
              && (forall t | t in p.audit.receipts && t != WholeScope :: p.audit.receipts[t].operation != EraseScope(serial))
              && end.audit == p.audit.(receipts := p.audit.receipts[WholeScope := NewReceipt(EraseScope(serial)).(ready := false)])
  {
    TwoLines(p, Note(DropDelivered), Note(InsertReceipt(WholeScope, EraseScope(serial))));
    var receipts := p.audit.receipts;
    var q := ExecLine(p, Note(DropDelivered));
    assert forall t | t in receipts && t != WholeScope :: t in q.audit.receipts && q.audit.receipts[t] == receipts[t];
    assert (receipts - {WholeScope})[WholeScope := Receipt(EraseScope(serial), false, false)]
        == receipts[WholeScope := Receipt(EraseScope(serial), false, false)];
  }
}
