/** The store as its methods run it: builders pushed statement by statement, loops over
    what was read, and transactions that change the tables in place. Each method is
    tied to the function the rest of the model reasons about. */
module StoreEngine {

  import opened Wrappers
  import opened Succession
  import opened StoreTables
  import opened StoreStaging
  import opened StoreWorld
  import opened StoreAccounting
  import opened StoreErasing
  import opened StoreScope

  /** The caller's transaction under construction. */
  class TxnBuilder {
    var statements: seq<Statement>

    constructor ()
      ensures statements == []
    {
      statements := [];
    }

    method Push(st: Statement)
      modifies this
      ensures statements == old(statements) + [st]
    {
      statements := statements + [st];
    }
  }

  // ---------------------------------------------- lists built from the front

  lemma {:induction false} SweepOneSnoc(table: Table, shells: seq<Shell>, s: Shell)
    ensures SweepOne(table, shells + [s]) == SweepOne(table, shells) + [OnDetails(Sweep(table, s.id))]
    decreases |shells|
  {
    if shells == [] {
      assert [s][1..] == [];
    } else {
      assert (shells + [s])[1..] == shells[1..] + [s];
      SweepOneSnoc(table, shells[1..], s);
    }
  }

  lemma {:induction false} SweepSnoc(tables: seq<Table>, table: Table, shells: seq<Shell>)
    ensures SweepStatements(tables + [table], shells) == SweepStatements(tables, shells) + SweepOne(table, shells)
    decreases |tables|
  {
    if tables == [] {
      assert [table][1..] == [];
    } else {
      assert (tables + [table])[1..] == tables[1..] + [table];
      SweepSnoc(tables[1..], table, shells);
    }
  }

  lemma {:induction false} MoveSnoc(shells: seq<Shell>, s: Shell)
    ensures MoveStatements(shells + [s]) == MoveStatements(shells) + [OnCounters(DecrementLive(s.id)), OnCounters(IncrementErased(s.id))]
    decreases |shells|
  {
    if shells == [] {
      assert [s][1..] == [];
    } else {
      assert (shells + [s])[1..] == shells[1..] + [s];
      MoveSnoc(shells[1..], s);
    }
  }

  lemma {:induction false} TombstoneSnoc(shells: seq<Shell>, s: Shell, now: nat)
    ensures TombstoneStatements(shells + [s], now) == TombstoneStatements(shells, now) + [OnRows(Tombstone(s.id, now, BlankRecord(s, now)))]
    decreases |shells|
  {
    if shells == [] {
      assert [s][1..] == [];
    } else {
      assert (shells + [s])[1..] == shells[1..] + [s];
      TombstoneSnoc(shells[1..], s, now);
    }
  }

  lemma {:induction false} QueueSnoc(shells: seq<Shell>, s: Shell)
    ensures QueueStatements(shells + [s]) == QueueStatements(shells) + [OnDetails(DeleteAttempts(s.id)), OnDetails(DeleteQueue(s.id))]
    decreases |shells|
  {
    if shells == [] {
      assert [s][1..] == [];
    } else {
      assert (shells + [s])[1..] == shells[1..] + [s];
      QueueSnoc(shells[1..], s);
    }
  }

  lemma {:induction false} DestroySnoc(shells: seq<Shell>, s: Shell)
    ensures DestroyStatements(shells + [s]) == DestroyStatements(shells) + [OnDetails(DestroyKeysFor(s.id))]
    decreases |shells|
  {
    if shells == [] {
      assert [s][1..] == [];
    } else {
      assert (shells + [s])[1..] == shells[1..] + [s];
      DestroySnoc(shells[1..], s);
    }
  }

  // ------------------------------------------------------- staging an erasure

  method StageSweep(txn: TxnBuilder, shells: seq<Shell>) returns (span: Range)
    modifies txn
    ensures txn.statements == old(txn.statements) + SweepStatements(TABLES, shells)
    ensures span == Range(|old(txn.statements)|, |txn.statements|)
  {
    var start := |txn.statements|;
    ghost var before := txn.statements;
    for i := 0 to |TABLES|
      invariant txn.statements == before + SweepStatements(TABLES[..i], shells)
    {
      for j := 0 to |shells|
        invariant txn.statements == before + SweepStatements(TABLES[..i], shells) + SweepOne(TABLES[i], shells[..j])
      {
        SweepOneSnoc(TABLES[i], shells[..j], shells[j]);
        assert shells[..j + 1] == shells[..j] + [shells[j]];
        txn.Push(OnDetails(Sweep(TABLES[i], shells[j].id)));
      }
      assert shells[..|shells|] == shells;
      SweepSnoc(TABLES[..i], TABLES[i], shells);
      assert TABLES[..i + 1] == TABLES[..i] + [TABLES[i]];
    }
    assert TABLES[..|TABLES|] == TABLES;
    span := Range(start, |txn.statements|);
  }

  method StageKeys(txn: TxnBuilder, shells: seq<Shell>) returns (span: Range)
    modifies txn
    ensures txn.statements == old(txn.statements) + DestroyStatements(shells)
    ensures span == Range(|old(txn.statements)|, |txn.statements|)
  {
    var start := |txn.statements|;
    ghost var before := txn.statements;
    for i := 0 to |shells|
      invariant txn.statements == before + DestroyStatements(shells[..i])
    {
      DestroySnoc(shells[..i], shells[i]);
      assert shells[..i + 1] == shells[..i] + [shells[i]];
      txn.Push(OnDetails(DestroyKeysFor(shells[i].id)));
    }
    assert shells[..|shells|] == shells;
    span := Range(start, |txn.statements|);
  }

  /** Counter moves in one pass, tombstones in the next; the span returned is the second. */
  method StageTombstones(txn: TxnBuilder, shells: seq<Shell>, now: nat) returns (span: Range)
    modifies txn
    ensures txn.statements == old(txn.statements) + MoveStatements(shells) + TombstoneStatements(shells, now)
    ensures span == Range(|old(txn.statements)| + |MoveStatements(shells)|, |txn.statements|)
  {
    ghost var before := txn.statements;
    for i := 0 to |shells|
      invariant txn.statements == before + MoveStatements(shells[..i])
    {
      MoveSnoc(shells[..i], shells[i]);
      assert shells[..i + 1] == shells[..i] + [shells[i]];
      txn.Push(OnCounters(DecrementLive(shells[i].id)));
      txn.Push(OnCounters(IncrementErased(shells[i].id)));
    }
    assert shells[..|shells|] == shells;
    var start := |txn.statements|;
    for i := 0 to |shells|
      invariant txn.statements == before + MoveStatements(shells) + TombstoneStatements(shells[..i], now)
    {
      TombstoneSnoc(shells[..i], shells[i], now);
      assert shells[..i + 1] == shells[..i] + [shells[i]];
      txn.Push(OnRows(Tombstone(shells[i].id, now, BlankRecord(shells[i], now))));
    }
    span := Range(start, |txn.statements|);
  }

  method StageQueue(txn: TxnBuilder, shells: seq<Shell>) returns (span: Range)
    modifies txn
    ensures txn.statements == old(txn.statements) + QueueStatements(shells)
    ensures span == Range(|old(txn.statements)|, |txn.statements|)
  {
    var start := |txn.statements|;
    ghost var before := txn.statements;
    for i := 0 to |shells|
      invariant txn.statements == before + QueueStatements(shells[..i])
    {
      QueueSnoc(shells[..i], shells[i]);
      assert shells[..i + 1] == shells[..i] + [shells[i]];
      txn.Push(OnDetails(DeleteAttempts(shells[i].id)));
      txn.Push(OnDetails(DeleteQueue(shells[i].id)));
    }
    assert shells[..|shells|] == shells;
    span := Range(start, |txn.statements|);
  }

  lemma {:induction false} InterleavedSnoc(sts: seq<Statement>, st: Statement, counts: Counts, operation: Operation, from: nat)
    ensures Interleaved(sts + [st], counts, operation, from)
         == Interleaved(sts, counts, operation, from) + Counted(st, TagAt(counts, from + |sts|), operation)
    decreases |sts|
  {
    if sts == [] {
      assert [st][1..] == [];
    } else {
      assert (sts + [st])[1..] == sts[1..] + [st];
      InterleavedSnoc(sts[1..], st, counts, operation, from + 1);
    }
  }

  /** Interleave the journal updates with the statements they count. */
  method Account(sts: seq<Statement>, operation: Operation, counts: Counts) returns (lines: seq<Line>)
    ensures lines == AccountedBatch(sts, counts, operation)
  {
    lines := [Note(OpenBatch(operation))];
    for i := 0 to |sts|
      invariant lines == [Note(OpenBatch(operation))] + Interleaved(sts[..i], counts, operation, 0)
    {
      InterleavedSnoc(sts[..i], sts[i], counts, operation, 0);
      assert sts[..i + 1] == sts[..i] + [sts[i]];
      lines := lines + [Do(sts[i])];
      if counts.keys.Contains(i) {
        lines := lines + [Note(AddChanges(Key, operation))];
      } else if counts.sweep.Contains(i) || counts.queue.Contains(i) {
        lines := lines + [Note(AddChanges(Derivative, operation))];
      } else if counts.tombstones.Contains(i) {
        lines := lines + [Note(AddChanges(Tombstoned, operation))];
      } else if counts.marked == Some(i) {
        lines := lines + [Note(AddChanges(Marking, operation))];
      }
    }
    assert sts[..|sts|] == sts;
    lines := lines + [Note(CloseBatch(operation))];
  }

  lemma {:induction false} EraseSpans(target: MemoryId, shells: seq<Shell>, cascade: bool, now: nat)
    ensures var batch := EraseBatch(target, shells, cascade, now);
            var k := |SweepStatements(TABLES, shells)| + |DestroyStatements(shells)|;
            var t := k + |MoveStatements(shells)|;
            var q := t + |TombstoneStatements(shells, now)|;
            var m := q + |QueueStatements(shells)|;
            && batch.statements == SweepStatements(TABLES, shells) + DestroyStatements(shells) + MoveStatements(shells)
                 + TombstoneStatements(shells, now) + QueueStatements(shells)
                 + [OnRows(MarkDerived(target))] + [OnClaims(if cascade then EraseClaims(target) else MarkClaims(target))]
            && batch.counts == Counts(Range(0, |SweepStatements(TABLES, shells)|), Range(|SweepStatements(TABLES, shells)|, k),
                                      Range(q, m), Range(t, q), Some(m))
  {
  }

  /** The spans of a batch, as they grow while it is pushed. */
  method StageBatch(target: MemoryId, shells: seq<Shell>, cascade: bool, now: nat) returns (statements: seq<Statement>, counts: Counts)
    ensures statements == SweepStatements(TABLES, shells) + DestroyStatements(shells) + MoveStatements(shells)
              + TombstoneStatements(shells, now) + QueueStatements(shells)
              + [OnRows(MarkDerived(target))] + [OnClaims(if cascade then EraseClaims(target) else MarkClaims(target))]
    ensures var k := |SweepStatements(TABLES, shells)| + |DestroyStatements(shells)|;
            var t := k + |MoveStatements(shells)|;
            var q := t + |TombstoneStatements(shells, now)|;
            var m := q + |QueueStatements(shells)|;
            counts == Counts(Range(0, |SweepStatements(TABLES, shells)|), Range(|SweepStatements(TABLES, shells)|, k),
                             Range(q, m), Range(t, q), Some(m))
  {
    var txn := new TxnBuilder();
    var sweep := StageSweep(txn, shells);
    var keys := StageKeys(txn, shells);
    var tombstones := StageTombstones(txn, shells, now);
    var queue := StageQueue(txn, shells);
    var marked := |txn.statements|;
    txn.Push(OnRows(MarkDerived(target)));
    txn.Push(OnClaims(if cascade then EraseClaims(target) else MarkClaims(target)));
    statements, counts := txn.statements, Counts(sweep, keys, queue, tombstones, Some(marked));
  }

  /** The transaction of one erasure. */
  method StageErasure(target: MemoryId, shells: seq<Shell>, cascade: bool, now: nat) returns (lines: seq<Line>)
    ensures lines == EraseLines(target, shells, cascade, now)
  {
    var statements, counts := StageBatch(target, shells, cascade, now);
    EraseSpans(target, shells, cascade, now);
    lines := Account(statements, EraseMemory(target), counts);
    lines := [Note(InsertReceipt(OneMemory(target), EraseMemory(target)))] + lines + [Note(MarkReady(OneMemory(target)))];
  }

  lemma {:induction false} DrainSpans(shells: seq<Shell>, now: nat)
    ensures var batch := DrainBatch(shells, now);
            var s := |SweepStatements(TABLES, shells)|;
            var t := s + 1 + |MoveStatements(shells)|;
            var q := t + |TombstoneStatements(shells, now)|;
            && batch.statements == SweepStatements(TABLES, shells) + [OnDetails(DestroyKeys)] + MoveStatements(shells)
                 + TombstoneStatements(shells, now) + QueueStatements(shells)
                 + [OnClaims(EraseScopeClaims)] + [OnClaims(ClearClaimSources)]
            && batch.counts == Counts(Range(0, s), Range(s, s + 1), Range(q, q + |QueueStatements(shells)|), Range(t, q), None)
  {
  }

  method StageScopeKeys(txn: TxnBuilder) returns (span: Range)
    modifies txn
    ensures txn.statements == old(txn.statements) + [OnDetails(DestroyKeys)]
    ensures span == Range(|old(txn.statements)|, |txn.statements|)
  {
    var at := |txn.statements|;
    txn.Push(OnDetails(DestroyKeys));
    span := Range(at, |txn.statements|);
  }

  /** The destructive part of one drain, pushed statement by statement. */
  method StageDrainBatch(shells: seq<Shell>, now: nat) returns (statements: seq<Statement>, counts: Counts)
    ensures statements == SweepStatements(TABLES, shells) + [OnDetails(DestroyKeys)] + MoveStatements(shells)
              + TombstoneStatements(shells, now) + QueueStatements(shells)
              + [OnClaims(EraseScopeClaims)] + [OnClaims(ClearClaimSources)]
    ensures var s := |SweepStatements(TABLES, shells)|;
            var t := s + 1 + |MoveStatements(shells)|;
            var q := t + |TombstoneStatements(shells, now)|;
            counts == Counts(Range(0, s), Range(s, s + 1), Range(q, q + |QueueStatements(shells)|), Range(t, q), None)
  {
    var txn := new TxnBuilder();
    var sweep := StageSweep(txn, shells);
    var keys := StageScopeKeys(txn);
    var tombstones := StageTombstones(txn, shells, now);
    var queue := StageQueue(txn, shells);
    txn.Push(OnClaims(EraseScopeClaims));
    txn.Push(OnClaims(ClearClaimSources));
    statements, counts := txn.statements, Counts(sweep, keys, queue, tombstones, None);
  }

  method StageDrain(operation: Operation, shells: seq<Shell>, now: nat) returns (lines: seq<Line>)
    ensures lines == DrainLines(operation, shells, now)
  {
    var statements, counts := StageDrainBatch(shells, now);
    DrainSpans(shells, now);
    var body := Account(statements, operation, counts);
    lines := [Note(StillDraining(operation))] + body + [Note(MarkReadyIfEmpty(operation))];
  }

  // ------------------------------------------------------------- the store

  /** Where transactions run: all of one, or none of it. */
  class Store {
    var tables: Db
    var audit: Audit

    constructor ()
      ensures tables == EMPTY && audit == Audit(map[], map[])
    {
      tables, audit := EMPTY, Audit(map[], map[]);
    }

    /** Run the lines in order on a copy, and keep the copy only if every one ran. */
    method Txn(lines: seq<Line>) returns (committed: bool, changes: nat)
      modifies this
      ensures var end := ExecLines(Running(old(tables), old(audit), 0), lines);
              committed == end.Running?
              && (if committed then tables == end.db && audit == end.audit && changes == end.changes
                  else tables == old(tables) && audit == old(audit))
    {
      var progress := Running(tables, audit, 0);
      var i := 0;
      ghost var start := progress;
      while i < |lines| && progress.Running?
        invariant i <= |lines|
        invariant ExecLines(start, lines) == ExecLines(progress, lines[i..])
      {
        assert lines[i..][0] == lines[i] && lines[i..][1..] == lines[i + 1..];
        progress := ExecLine(progress, lines[i]);
        i := i + 1;
      }
      committed := progress.Running?;
      changes := 0;
      if committed {
        assert lines[i..] == [];
        tables, audit, changes := progress.db, progress.audit, progress.changes;
      }
    }

    /** Drain once: read a batch, stage it, commit it. */
    method DrainOneBatch(serial: nat, batch: nat, now: nat) returns (drained: bool)
      requires 1 <= batch <= MAX_ERASURE_BATCH
      requires WholeScope in audit.receipts && audit.receipts[WholeScope] == Receipt(EraseScope(serial), false, false)
      modifies this
      ensures var limit := if batch < MAX_ACCOUNTED_ERASURE_BATCH then batch else MAX_ACCOUNTED_ERASURE_BATCH;
              |PresentIds(tables)| == if |PresentIds(old(tables))| <= limit then 0 else |PresentIds(old(tables))| - limit
      ensures drained <==> |PresentIds(tables)| == 0
      ensures drained <==> ScopeEmpty(tables)
      ensures audit == Audit(old(audit).receipts[WholeScope := Receipt(EraseScope(serial), drained, false)],
                             Journaled(old(audit).journal, EraseScope(serial), Destroyed(old(tables), tables)))
      ensures Destroyed(old(tables), tables).memories == |PresentIds(old(tables))| - |PresentIds(tables)|
    {
      var shells := DrainShells(tables, batch);
      var lines := StageDrain(EraseScope(serial), shells, now);
      DrainCommitsAlways(tables, audit, serial, tables, batch, now);
      DrainRuns(Running(tables, audit, 0), EraseScope(serial), shells, now);
      FreshDrain(tables, batch, now);
      var committed, changes := Txn(lines);
      drained := changes == 1;
    }
  }

  function Rounds(n: nat, limit: nat): nat
    requires limit > 0
  {
    if n <= limit then 1 else 1 + Rounds(n - limit, limit)
  }

  lemma {:induction false} RoundsIsCeiling(n: nat, limit: nat)
    requires limit > 0 && n > 0
    ensures (Rounds(n, limit) - 1) * limit < n <= Rounds(n, limit) * limit
    decreases n
  {
    if n > limit {
      RoundsIsCeiling(n - limit, limit);
      assert (Rounds(n - limit, limit) - 1) * limit + limit == (Rounds(n, limit) - 1) * limit;
    }
  }

  /** No journal row says that nothing happened. */
  ghost predicate Dense(journal: map<nat, JournalRow>) {
    forall b | b in journal :: !Hollow(journal[b], journal[b].operation)
  }

  lemma {:induction false} BatchCounts(journal: map<nat, JournalRow>, o: Operation, gone: Totals)
    requires Dense(journal) && gone.memories > 0
    ensures Dense(Journaled(journal, o, gone)) && BatchesOf(Journaled(journal, o, gone), o) == BatchesOf(journal, o) + 1
  {
    var next := NextBatch(journal);
    NoneBeyond(journal, next);
    var after := Journaled(journal, o, gone);
    assert after == journal[next := JournalRow(o, gone)];
    assert RowsOf(after, o) == RowsOf(journal, o) + {next} && next !in RowsOf(journal, o);
  }

  /** Without new writes a scope of `n` memories is erased in as many commits as batches of
      the bounded size are needed, each leaving one journal row; the last makes it ready. */
  method DrainScope(store: Store, serial: nat, batch: nat, now: nat) returns (commits: nat)
    requires 1 <= batch <= MAX_ERASURE_BATCH
    requires WholeScope in store.audit.receipts && store.audit.receipts[WholeScope] == Receipt(EraseScope(serial), false, false)
    requires Dense(store.audit.journal)
    modifies store
    ensures ScopeEmpty(store.tables)
    ensures store.audit.receipts == old(store.audit.receipts)[WholeScope := Receipt(EraseScope(serial), true, false)]
    ensures var limit := if batch < MAX_ACCOUNTED_ERASURE_BATCH then batch else MAX_ACCOUNTED_ERASURE_BATCH;
            var n := |PresentIds(old(store.tables))|;
            && commits == Rounds(n, limit)
            && (n > 0 ==> BatchesOf(store.audit.journal, EraseScope(serial))
                          == BatchesOf(old(store.audit.journal), EraseScope(serial)) + commits)
  {
    var limit := if batch < MAX_ACCOUNTED_ERASURE_BATCH then batch else MAX_ACCOUNTED_ERASURE_BATCH;
    ghost var o := EraseScope(serial);
    ghost var n := |PresentIds(store.tables)|;
    commits := 0;
    var drained := false;
    while !drained
      invariant WholeScope in store.audit.receipts && store.audit.receipts[WholeScope] == Receipt(o, drained, false)
      invariant store.audit.receipts == old(store.audit.receipts)[WholeScope := Receipt(o, drained, false)]
      invariant drained <==> commits > 0 && |PresentIds(store.tables)| == 0
      invariant drained ==> ScopeEmpty(store.tables) && commits == Rounds(n, limit)
      invariant !drained ==> Rounds(n, limit) == commits + Rounds(|PresentIds(store.tables)|, limit)
      invariant !drained && n > 0 ==> |PresentIds(store.tables)| > 0 && Dense(store.audit.journal)
      invariant n > 0 ==> BatchesOf(store.audit.journal, o) == BatchesOf(old(store.audit.journal), o) + commits
      invariant n == 0 && !drained ==> commits == 0
      decreases !drained, |PresentIds(store.tables)|
    {
      ghost var before, journal := store.tables, store.audit.journal;
      drained := store.DrainOneBatch(serial, batch, now);
      commits := commits + 1;
      if n > 0 {
        BatchCounts(journal, o, Destroyed(before, store.tables));
      }
    }
  }
}
