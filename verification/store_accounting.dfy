/** The totals an erasure reports are the rows it destroyed. */
module StoreAccounting {

  import opened Wrappers
  import opened Succession
  import opened StoreTables
  import opened StoreWorld

  ghost function PresentIds(db: Db): set<MemoryId> {
    set m | m in db.memory && db.memory[m].state != Erased
  }

  ghost function MarkedIds(db: Db): set<MemoryId> {
    set m | m in db.memory && db.memory[m].originErased
  }

  ghost function DetailRows(t: Details): int {
    |t.provenance| + |t.derivation| + |t.sources| + |t.keys| + |t.chunks| + |t.vectors| + |t.work| + |t.attempts|
  }

  /** What the tables hold, signed so that destruction makes it larger. */
  ghost function Gauge(db: Db): Totals {
    Totals(-|PresentIds(db)|, -DetailRows(db.details), -|db.details.keys|, |MarkedIds(db)|)
  }

  /** The rows that are gone, and the rows newly marked, between two moments. */
  ghost function Destroyed(before: Db, after: Db): Totals {
    Minus(Gauge(after), Gauge(before))
  }

  /** The tag a statement must carry for its row count to mean what it is added to. */
  ghost predicate Honest(st: Statement, tag: Tag) {
    match tag
    case Derivative => st.OnDetails? && (st.detail.Sweep? || st.detail.DeleteAttempts? || st.detail.DeleteQueue?)
    case Key => st.OnDetails? && (st.detail.DestroyKeysFor? || st.detail.DestroyKeys?)
    case Tombstoned => st.OnRows? && st.row.Tombstone?
    case Marking => st.OnRows? && st.row.MarkDerived?
    case Uncounted => st.OnCounters? || st.OnClaims?
  }

  lemma {:induction false} Fewer<T>(all: set<T>, gone: set<T>)
    requires gone <= all
    ensures |all - gone| == |all| - |gone|
  {
  }

  lemma {:induction false} FewerKeys<K, V>(all: map<K, V>, gone: set<K>)
    requires gone <= all.Keys
    ensures |all - gone| == |all| - |gone|
  {
    assert (all - gone).Keys == all.Keys - gone;
    assert |all - gone| == |(all - gone).Keys|;
    assert |all| == |all.Keys|;
  }

  lemma {:induction false} QueueRows(t: Details, gone: set<WorkKey>)
    requires gone <= t.work.Keys
    ensures DetailRows(t.(work := t.work - gone)) == DetailRows(t) - |gone|
  {
    FewerKeys(t.work, gone);
  }

  lemma {:induction false} KeyRows(t: Details, gone: set<KeyId>)
    requires gone <= t.keys.Keys
    ensures DetailRows(t.(keys := t.keys - gone)) == DetailRows(t) - |gone|
    ensures |t.keys - gone| == |t.keys| - |gone|
  {
    FewerKeys(t.keys, gone);
  }

  lemma {:induction false} NoKeyRows(t: Details)
    ensures DetailRows(t.(keys := map[])) == DetailRows(t) - |t.keys|
  {
  }

  lemma {:induction false} SweepRows(t: Details, table: Table, id: MemoryId)
    requires SweepTable(t, table, id).Wrote?
    ensures DetailRows(SweepTable(t, table, id).table) == DetailRows(t) - SweepTable(t, table, id).changes
    ensures |SweepTable(t, table, id).table.keys| == |t.keys|
  {
    match table
    case VectorTable => Fewer(t.vectors, set p | p in t.vectors && p.memory == id);
    case ChunkTable =>
      var gone := set p | p in t.chunks && p.memory == id;
      assert t.chunks * gone == gone;
      Fewer(t.chunks, gone);
    case ProvenanceTable => Fewer(t.provenance, set m | m in t.provenance && m == id);
    case DerivationTable => Fewer(t.derivation, set p | p in t.derivation && p.child == id);
    case SourceTable => Fewer(t.sources, set s | s in t.sources && s.memory == id);
  }

  lemma {:induction false} DetailStep(db: Db, d: DetailStatement)
    requires d.Sweep? || d.DeleteAttempts? || d.DeleteQueue? || d.DestroyKeysFor? || d.DestroyKeys?
    requires WriteDetail(db, d).Wrote?
    ensures DetailRows(WriteDetail(db, d).table) == DetailRows(db.details) - WriteDetail(db, d).changes
    ensures |WriteDetail(db, d).table.keys|
         == |db.details.keys| - if d.DestroyKeysFor? || d.DestroyKeys? then WriteDetail(db, d).changes else 0
  {
    match d
    case Sweep(table, id) => SweepRows(db.details, table, id);
    case DeleteAttempts(id) => AttemptsStep(db, id);
    case DeleteQueue(id) => QueueStep(db, id);
    case DestroyKeysFor(id) => KeysForStep(db, id);
    case DestroyKeys => NoKeyRows(db.details);
  }

  lemma {:induction false} AttemptsStep(db: Db, id: MemoryId)
    ensures var d := DeleteAttempts(id);
            WriteDetail(db, d).Wrote? && WriteDetail(db, d).table.keys == db.details.keys
            && DetailRows(WriteDetail(db, d).table) == DetailRows(db.details) - WriteDetail(db, d).changes
  {
    var t := db.details;
    Fewer(t.attempts, set a | a in t.attempts && a.memory == id);
  }

  lemma {:induction false} QueueStep(db: Db, id: MemoryId)
    ensures var d := DeleteQueue(id);
            WriteDetail(db, d).Wrote? && WriteDetail(db, d).table.keys == db.details.keys
            && DetailRows(WriteDetail(db, d).table) == DetailRows(db.details) - WriteDetail(db, d).changes
  {
    var t := db.details;
    QueueRows(t, set k | k in t.work && k.memory == id);
  }

  lemma {:induction false} KeysForStep(db: Db, id: MemoryId)
    ensures var d := DestroyKeysFor(id);
            WriteDetail(db, d).Wrote? && |WriteDetail(db, d).table.keys| == |db.details.keys| - WriteDetail(db, d).changes
            && DetailRows(WriteDetail(db, d).table) == DetailRows(db.details) - WriteDetail(db, d).changes
  {
    var t := db.details;
    KeyRows(t, set k | k in t.keys && t.keys[k] == Some(id));
  }

  lemma {:induction false} TombstoneStep(db: Db, r: RowStatement, after: Db)
    requires r.Tombstone? && WriteRow(db, r).Wrote? && after == db.(memory := WriteRow(db, r).table)
    ensures |PresentIds(after)| == |PresentIds(db)| - WriteRow(db, r).changes && |MarkedIds(after)| == |MarkedIds(db)|
  {
    assert MarkedIds(after) == MarkedIds(db);
    if Present(db, r.id) {
      assert PresentIds(after) == PresentIds(db) - {r.id};
    } else {
      assert PresentIds(after) == PresentIds(db);
    }
  }

  lemma {:induction false} MarkStep(db: Db, r: RowStatement, after: Db)
    requires r.MarkDerived? && WriteRow(db, r).Wrote? && after == db.(memory := WriteRow(db, r).table)
    ensures |PresentIds(after)| == |PresentIds(db)| && |MarkedIds(after)| == |MarkedIds(db)| + WriteRow(db, r).changes
  {
    var hit := Hit(db, r.parent);
    MarksHit(db, r, after);
    assert PresentIds(after) == PresentIds(db);
    assert MarkedIds(after) == MarkedIds(db) + hit;
    assert MarkedIds(db) !! hit;
  }

  /** The memories a marking reaches: derived from the parent, alive and not marked yet. */
  ghost function Hit(db: Db, parent: MemoryId): set<MemoryId> {
    set m | m in db.memory && !db.memory[m].originErased && db.memory[m].state != Erased
            && Parentage(m, parent) in db.details.derivation
  }

  lemma {:induction false} MarksHit(db: Db, r: RowStatement, after: Db)
    requires r.MarkDerived? && WriteRow(db, r).Wrote? && after == db.(memory := WriteRow(db, r).table)
    ensures WriteRow(db, r).changes == |Hit(db, r.parent)| && after.memory.Keys == db.memory.Keys
    ensures forall m | m in db.memory ::
      (after.memory[m].state == db.memory[m].state
       && after.memory[m].originErased == (db.memory[m].originErased || m in Hit(db, r.parent)))
  {
    var hit := set m | m in db.memory && !db.memory[m].originErased && db.memory[m].state != Erased
                       && Parentage(m, r.parent) in db.details.derivation;
    assert hit == Hit(db, r.parent);
  }

  lemma {:induction false} RowStep(db: Db, r: RowStatement)
    requires r.Tombstone? || r.MarkDerived?
    requires WriteRow(db, r).Wrote?
    ensures |PresentIds(db.(memory := WriteRow(db, r).table))|
         == |PresentIds(db)| - if r.Tombstone? then WriteRow(db, r).changes else 0
    ensures |MarkedIds(db.(memory := WriteRow(db, r).table))|
         == |MarkedIds(db)| + if r.MarkDerived? then WriteRow(db, r).changes else 0
  {
    if r.Tombstone? {
      TombstoneStep(db, r, db.(memory := WriteRow(db, r).table));
    } else {
      MarkStep(db, r, db.(memory := WriteRow(db, r).table));
    }
  }

  lemma {:induction false} HonestStep(db: Db, st: Statement, tag: Tag)
    requires Honest(st, tag) && Exec(db, st).Ran?
    ensures Gauge(Exec(db, st).db) == Plus(Gauge(db), Credit(tag, Exec(db, st).changes))
  {
    var after := Exec(db, st).db;
    match tag
    case Derivative =>
      DetailStep(db, st.detail);
      assert PresentIds(after) == PresentIds(db) && MarkedIds(after) == MarkedIds(db);
    case Key =>
      DetailStep(db, st.detail);
      assert PresentIds(after) == PresentIds(db) && MarkedIds(after) == MarkedIds(db);
    case Tombstoned => RowStep(db, st.row);
    case Marking => RowStep(db, st.row);
    case Uncounted =>
      assert PresentIds(after) == PresentIds(db) && MarkedIds(after) == MarkedIds(db);
  }

  ghost predicate AllHonest(sts: seq<Statement>, counts: Counts, from: nat) {
    forall i | 0 <= i < |sts| :: Honest(sts[i], TagAt(counts, from + i))
  }

  /** The journal with `more` added to its last row. */
  ghost function Added(journal: map<nat, JournalRow>, more: Totals): map<nat, JournalRow>
    requires journal != map[]
  {
    var last := LastBatch(journal);
    journal[last := journal[last].(totals := Plus(journal[last].totals, more))]
  }

  lemma {:induction false} AddedTwice(journal: map<nat, JournalRow>, a: Totals, b: Totals)
    requires journal != map[]
    ensures Added(journal, a).Keys == journal.Keys && Added(journal, a) != map[]
    ensures Added(Added(journal, a), b) == Added(journal, Plus(a, b))
  {
    assert Added(journal, a).Keys == journal.Keys;
    assert LastBatch(journal) in Added(journal, a);
  }

  lemma {:induction false} ExecLinesAppend(p: Progress, a: seq<Line>, b: seq<Line>)
    ensures ExecLines(p, a + b) == ExecLines(ExecLines(p, a), b)
    decreases |a|
  {
    if a == [] {
      assert a + b == b;
    } else if p.Running? {
      assert (a + b)[1..] == a[1..] + b;
      ExecLinesAppend(ExecLine(p, a[0]), a[1..], b);
    }
  }

  ghost predicate Opened(p: Progress, operation: Operation) {
    p.Running? && p.audit.journal != map[] && p.audit.journal[LastBatch(p.audit.journal)].operation == operation
  }

  /** `end` is what a batch leaves whose bare statements come to `bare`. */
  ghost predicate Accounts(p: Progress, bare: Outcome, end: Progress)
    requires p.Running? && p.audit.journal != map[]
  {
    if bare.Abort? then end.Failed?
    else end.Running? && end.db == bare.db
         && end.audit == p.audit.(journal := Added(p.audit.journal, Destroyed(p.db, bare.db)))
  }

  function Counted(st: Statement, tag: Tag, operation: Operation): seq<Line> {
    if tag.Uncounted? then [Do(st)] else [Do(st), Note(AddChanges(tag, operation))]
  }

  lemma {:induction false} SingleLine(p: Progress, line: Line)
    requires p.Running?
    ensures ExecLines(p, [line]) == ExecLine(p, line)
  {
    assert [line][1..] == [];
  }

  lemma {:induction false} TwoLines(p: Progress, a: Line, b: Line)
    requires p.Running?
    ensures ExecLines(p, [a, b]) == if ExecLine(p, a).Failed? then Failed else ExecLine(ExecLine(p, a), b)
  {
    assert [a, b][1..] == [b];
    if ExecLine(p, a).Running? {
      SingleLine(ExecLine(p, a), b);
    }
  }

  lemma {:induction false} NoteRuns(p: Progress, tag: Tag, operation: Operation)
    requires Opened(p, operation)
    ensures ExecNote(p.db, p.audit, p.changes, AddChanges(tag, operation))
         == Running(p.db, p.audit.(journal := Added(p.audit.journal, Credit(tag, p.changes))), 1)
  {
  }

  lemma {:induction false} UncountedRuns(p: Progress, st: Statement, operation: Operation)
    requires Opened(p, operation) && Honest(st, Uncounted)
    ensures Accounts(p, Exec(p.db, st), ExecLines(p, [Do(st)]))
  {
    SingleLine(p, Do(st));
    if Exec(p.db, st).Ran? {
      HonestStep(p.db, st, Uncounted);
      assert Added(p.audit.journal, ZERO) == p.audit.journal;
    }
  }

  lemma {:induction false} TaggedRuns(p: Progress, st: Statement, tag: Tag, operation: Operation)
    requires Opened(p, operation) && Honest(st, tag) && !tag.Uncounted?
    ensures Accounts(p, Exec(p.db, st), ExecLines(p, [Do(st), Note(AddChanges(tag, operation))]))
  {
    var step := Exec(p.db, st);
    TwoLines(p, Do(st), Note(AddChanges(tag, operation)));
    if step.Ran? {
      HonestStep(p.db, st, tag);
      assert Destroyed(p.db, step.db) == Credit(tag, step.changes);
      NoteRuns(Running(step.db, p.audit, step.changes), tag, operation);
    }
  }

  lemma {:induction false} CountedRuns(p: Progress, st: Statement, tag: Tag, operation: Operation)
    requires Opened(p, operation) && Honest(st, tag)
    ensures Accounts(p, Exec(p.db, st), ExecLines(p, Counted(st, tag, operation)))
  {
    if tag.Uncounted? {
      UncountedRuns(p, st, operation);
    } else {
      TaggedRuns(p, st, tag, operation);
    }
  }

  lemma {:induction false} AccountsThen(p: Progress, middle: Progress, end: Progress, bare: Db, last: Outcome, operation: Operation)
    requires Opened(p, operation) && Accounts(p, Ran(bare, 0), middle)
    requires Opened(middle, operation) && Accounts(middle, last, end)
    ensures Accounts(p, last, end)
  {
    if last.Ran? {
      AddedTwice(p.audit.journal, Destroyed(p.db, bare), Destroyed(bare, last.db));
      assert Plus(Destroyed(p.db, bare), Destroyed(bare, last.db)) == Destroyed(p.db, last.db);
    }
  }

  lemma {:induction false} StaysOpened(p: Progress, bare: Outcome, end: Progress, operation: Operation)
    requires Opened(p, operation) && Accounts(p, bare, end) && bare.Ran?
    ensures Opened(end, operation)
  {
    AddedTwice(p.audit.journal, Destroyed(p.db, bare.db), ZERO);
  }

  lemma {:induction false} HonestOn(sts: seq<Statement>, counts: Counts, from: nat)
    requires AllHonest(sts, counts, from) && sts != []
    ensures Honest(sts[0], TagAt(counts, from)) && AllHonest(sts[1..], counts, from + 1)
  {
    assert Honest(sts[0], TagAt(counts, from + 0));
    forall i | 0 <= i < |sts[1..]| ensures Honest(sts[1..][i], TagAt(counts, from + 1 + i)) {
      assert Honest(sts[i + 1], TagAt(counts, from + (i + 1)));
    }
  }

  /** One statement with its count, then the rest of an interleaved batch. */
  lemma {:induction false} CountedThen(p: Progress, st: Statement, tag: Tag, operation: Operation, q: Progress, more: seq<Statement>, rest: seq<Line>)
    requires Opened(p, operation) && Honest(st, tag) && q == ExecLines(p, Counted(st, tag, operation))
    requires Opened(q, operation) && Exec(p.db, st).Ran? ==> Accounts(q, ExecAll(Exec(p.db, st).db, more), ExecLines(q, rest))
    ensures Exec(p.db, st).Ran? ==>
      Opened(q, operation) && Accounts(p, ExecAll(Exec(p.db, st).db, more), ExecLines(p, Counted(st, tag, operation) + rest))
    ensures Exec(p.db, st).Abort? ==> ExecLines(p, Counted(st, tag, operation) + rest).Failed?
  {
    ExecLinesAppend(p, Counted(st, tag, operation), rest);
    CountedRuns(p, st, tag, operation);
    var step := Exec(p.db, st);
    if step.Ran? {
      StaysOpened(p, step, q, operation);
      AccountsThen(p, q, ExecLines(q, rest), step.db, ExecAll(step.db, more), operation);
    }
  }

  lemma {:induction false} StaysCounted(p: Progress, st: Statement, tag: Tag, operation: Operation, q: Progress)
    requires Opened(p, operation) && Honest(st, tag) && q == ExecLines(p, Counted(st, tag, operation)) && Exec(p.db, st).Ran?
    ensures Opened(q, operation) && q.db == Exec(p.db, st).db
  {
    CountedRuns(p, st, tag, operation);
    StaysOpened(p, Exec(p.db, st), q, operation);
  }

  /** An interleaved batch does to the tables what the bare batch does, and leaves in
      the open journal row the difference between the tables before and after. */
  lemma {:induction false} InterleavedRuns(p: Progress, sts: seq<Statement>, counts: Counts, operation: Operation, from: nat)
    requires Opened(p, operation) && AllHonest(sts, counts, from)
    ensures Accounts(p, ExecAll(p.db, sts), ExecLines(p, Interleaved(sts, counts, operation, from)))
    decreases |sts|
  {
    if sts == [] {
      assert Added(p.audit.journal, Destroyed(p.db, p.db)) == p.audit.journal;
    } else {
      HonestOn(sts, counts, from);
      var tag := TagAt(counts, from);
      var rest := Interleaved(sts[1..], counts, operation, from + 1);
      var q := ExecLines(p, Counted(sts[0], tag, operation));
      if Exec(p.db, sts[0]).Ran? {
        StaysCounted(p, sts[0], tag, operation, q);
        InterleavedRuns(q, sts[1..], counts, operation, from + 1);
      }
      CountedThen(p, sts[0], tag, operation, q, sts[1..], rest);
    }
  }

  /** Rows a batch leaves behind when it destroyed nothing. */
  ghost predicate Hollow(row: JournalRow, operation: Operation) {
    row.operation == operation && row.totals.memories == 0 && row.totals.derivatives == 0 && row.totals.marked == 0
  }

  /** The journal after a batch of `operation` that destroyed `gone`. */
  ghost function Journaled(journal: map<nat, JournalRow>, operation: Operation, gone: Totals): map<nat, JournalRow> {
    var noted := journal[NextBatch(journal) := JournalRow(operation, gone)];
    noted - set b | b in noted && Hollow(noted[b], operation)
  }

  /** A whole accounted batch: all or nothing on the tables, and one journal row saying what went. */
  lemma {:induction false} AccountedRuns(p: Progress, sts: seq<Statement>, counts: Counts, operation: Operation)
    requires p.Running? && AllHonest(sts, counts, 0)
    ensures var end := ExecLines(p, AccountedBatch(sts, counts, operation));
            var bare := ExecAll(p.db, sts);
            if bare.Abort? then end.Failed?
            else end.Running? && end.db == bare.db && end.audit.receipts == p.audit.receipts
                 && end.audit.journal == Journaled(p.audit.journal, operation, Destroyed(p.db, bare.db))
  {
    var open := [Note(OpenBatch(operation))];
    var body := Interleaved(sts, counts, operation, 0);
    var close := [Note(CloseBatch(operation))];
    ExecLinesAppend(p, open + body, close);
    ExecLinesAppend(p, open, body);
    var q := ExecLine(p, open[0]);
    SingleLine(p, open[0]);
    var next := NextBatch(p.audit.journal);
    NextIsLast(p.audit.journal, JournalRow(operation, ZERO));
    InterleavedRuns(q, sts, counts, operation, 0);
    var r := ExecLines(q, body);
    if r.Running? {
      SingleLine(r, close[0]);
      CloseIsJournaled(p.audit.journal, operation, Destroyed(p.db, r.db), r);
    }
  }

  lemma {:induction false} NextIsLast(journal: map<nat, JournalRow>, row: JournalRow)
    ensures var more := journal[NextBatch(journal) := row];
            more != map[] && LastBatch(more) == NextBatch(journal)
  {
    var more := journal[NextBatch(journal) := row];
    assert NextBatch(journal) in more;
    assert more.Keys == journal.Keys + {NextBatch(journal)};
  }

  lemma {:induction false} CloseIsJournaled(journal: map<nat, JournalRow>, operation: Operation, gone: Totals, r: Progress)
    requires r.Running?
    requires NextBatch(journal) in journal[NextBatch(journal) := JournalRow(operation, ZERO)]
    requires journal[NextBatch(journal) := JournalRow(operation, ZERO)] != map[]
    requires r.audit.journal == Added(journal[NextBatch(journal) := JournalRow(operation, ZERO)], gone)
    ensures ExecNote(r.db, r.audit, r.changes, CloseBatch(operation))
         == Running(r.db, r.audit.(journal := Journaled(journal, operation, gone)),
                    ExecNote(r.db, r.audit, r.changes, CloseBatch(operation)).changes)
  {
    NextIsLast(journal, JournalRow(operation, ZERO));
    assert r.audit.journal == journal[NextBatch(journal) := JournalRow(operation, gone)];
    CloseDrops(r, operation);
  }

  lemma {:induction false} CloseDrops(r: Progress, operation: Operation)
    requires r.Running?
    ensures var noted := r.audit.journal;
            var hollow := set b | b in noted && Hollow(noted[b], operation);
            ExecNote(r.db, r.audit, r.changes, CloseBatch(operation))
            == Running(r.db, r.audit.(journal := noted - hollow), |hollow|)
  {
    var noted := r.audit.journal;
    var empty := set b | b in noted && noted[b].operation == operation
                         && noted[b].totals.memories == 0 && noted[b].totals.derivatives == 0 && noted[b].totals.marked == 0;
    assert empty == set b | b in noted && Hollow(noted[b], operation);
  }

  // ------------------------------------------------------------ summing up

  /** What every stored journal row satisfies: keys are counted among the derivatives. */
  ghost predicate JournalSane(journal: map<nat, JournalRow>) {
    forall b | b in journal :: 0 <= journal[b].totals.keys <= journal[b].totals.derivatives
  }

  lemma {:induction false} NoneBeyond(journal: map<nat, JournalRow>, b: nat)
    ensures b >= NextBatch(journal) ==> b !in journal
  {
  }

  lemma {:induction false} SumBeyond(journal: map<nat, JournalRow>, operation: Operation, below: nat)
    requires below >= NextBatch(journal)
    ensures SumOf(journal, operation, below) == TotalsOf(journal, operation)
    decreases below
  {
    if below > NextBatch(journal) {
      NoneBeyond(journal, below - 1);
      SumBeyond(journal, operation, below - 1);
    }
  }

  lemma {:induction false} SumSkipsHollow(journal: map<nat, JournalRow>, fewer: map<nat, JournalRow>, operation: Operation, below: nat)
    requires forall b | b in fewer :: b in journal && journal[b] == fewer[b]
    requires forall b | b in journal && b !in fewer :: journal[b].operation == operation ==> journal[b].totals == ZERO
    ensures SumOf(fewer, operation, below) == SumOf(journal, operation, below)
  {
    if below > 0 {
      SumSkipsHollow(journal, fewer, operation, below - 1);
    }
  }

  lemma {:induction false} SumUnchanged(journal: map<nat, JournalRow>, more: map<nat, JournalRow>, operation: Operation, below: nat)
    requires forall b | 0 <= b < below :: (b in journal <==> b in more) && (b in journal ==> journal[b] == more[b])
    ensures SumOf(more, operation, below) == SumOf(journal, operation, below)
  {
    if below > 0 {
      SumUnchanged(journal, more, operation, below - 1);
    }
  }

  /** One batch moves the totals of its own operation by exactly what went, and of no other. */
  lemma {:induction false} BatchMovesTotals(journal: map<nat, JournalRow>, operation: Operation, gone: Totals, other: Operation)
    requires JournalSane(journal) && 0 <= gone.keys <= gone.derivatives
    ensures JournalSane(Journaled(journal, operation, gone))
    ensures TotalsOf(Journaled(journal, operation, gone), other)
         == if other == operation then Plus(TotalsOf(journal, operation), gone) else TotalsOf(journal, other)
  {
    var next := NextBatch(journal);
    NotedMovesTotals(journal, operation, gone, other);
    HollowsAreZero(journal, operation, gone);
    SumSkipsHollow(journal[next := JournalRow(operation, gone)], Journaled(journal, operation, gone), other, next + 1);
    NextAfter(journal, operation, gone);
    SumBeyond(Journaled(journal, operation, gone), other, next + 1);
  }

  lemma {:induction false} NotedMovesTotals(journal: map<nat, JournalRow>, operation: Operation, gone: Totals, other: Operation)
    ensures var next := NextBatch(journal);
            SumOf(journal[next := JournalRow(operation, gone)], other, next + 1)
            == if other == operation then Plus(TotalsOf(journal, operation), gone) else TotalsOf(journal, other)
  {
    var next := NextBatch(journal);
    var noted := journal[next := JournalRow(operation, gone)];
    SumUnchanged(journal, noted, other, next);
    assert next in noted && noted[next] == JournalRow(operation, gone);
  }

  /** What closing a batch drops had nothing in it, so the totals do not miss it. */
  lemma {:induction false} HollowsAreZero(journal: map<nat, JournalRow>, operation: Operation, gone: Totals)
    requires JournalSane(journal) && 0 <= gone.keys <= gone.derivatives
    ensures var noted, after := journal[NextBatch(journal) := JournalRow(operation, gone)], Journaled(journal, operation, gone);
            && JournalSane(after)
            && (forall b | b in after :: b in noted && noted[b] == after[b])
            && (forall b | b in noted && b !in after :: noted[b].totals == ZERO)
  {
    var noted, after := journal[NextBatch(journal) := JournalRow(operation, gone)], Journaled(journal, operation, gone);
    assert JournalSane(noted);
    forall b | b in noted && b !in after ensures noted[b].totals == ZERO {
      assert Hollow(noted[b], operation);
    }
  }

  lemma {:induction false} NextAfter(journal: map<nat, JournalRow>, operation: Operation, gone: Totals)
    ensures NextBatch(Journaled(journal, operation, gone)) <= NextBatch(journal) + 1
  {
    var after := Journaled(journal, operation, gone);
    if after != map[] {
      var last := LastBatch(after);
      assert last in journal[NextBatch(journal) := JournalRow(operation, gone)];
      NoneBeyond(journal, last);
    }
  }
}
