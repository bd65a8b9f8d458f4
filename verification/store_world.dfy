/** A scope's tables together with the durable record of its erasures, and what
    one transaction over both does. */
module StoreWorld {

  import opened Ordered
  import opened Wrappers
  import opened Succession
  import opened StoreTables
  import opened StoreStaging

  /** An erasure addresses one memory, or the whole scope. */
  datatype Target = WholeScope | OneMemory(id: MemoryId)

  /** The identity of one durable operation; a scope operation mints a serial. */
  datatype Operation = EraseMemory(id: MemoryId) | EraseScope(serial: nat)

  datatype Receipt = Receipt(operation: Operation, ready: bool, delivered: bool)

  datatype Totals = Totals(memories: int, derivatives: int, keys: int, marked: int)

  const ZERO := Totals(0, 0, 0, 0)

  datatype JournalRow = JournalRow(operation: Operation, totals: Totals)

  datatype Audit = Audit(receipts: map<Target, Receipt>, journal: map<nat, JournalRow>)

  /** How the statement just run is accounted for. */
  datatype Tag = Uncounted | Derivative | Key | Tombstoned | Marking

  datatype AuditStatement =
    | InsertReceipt(target: Target, operation: Operation)
    | DropDelivered
    | StillDraining(operation: Operation)
    | OpenBatch(operation: Operation)
    | AddChanges(tag: Tag, operation: Operation)
    | CloseBatch(operation: Operation)
    | MarkReady(target: Target)
    | MarkReadyIfEmpty(operation: Operation)
    | MarkDelivered(target: Target, operation: Operation)

  datatype Line = Do(statement: Statement) | Note(audit: AuditStatement)

  /** A transaction under way; `changes` is what the last statement reported. */
  datatype Progress = Failed | Running(db: Db, audit: Audit, changes: nat)

  function Plus(a: Totals, b: Totals): Totals {
    Totals(a.memories + b.memories, a.derivatives + b.derivatives, a.keys + b.keys, a.marked + b.marked)
  }

  function Minus(a: Totals, b: Totals): Totals {
    Totals(a.memories - b.memories, a.derivatives - b.derivatives, a.keys - b.keys, a.marked - b.marked)
  }

  function LastBatch(journal: map<nat, JournalRow>): nat
    requires journal != map[]
  {
    assert exists b :: b in journal.Keys;
    Highest(journal.Keys)
  }

  function NextBatch(journal: map<nat, JournalRow>): nat {
    if journal == map[] then 0 else LastBatch(journal) + 1
  }

  function Credit(tag: Tag, changes: nat): Totals {
    match tag
    case Uncounted => ZERO
    case Derivative => Totals(0, changes, 0, 0)
    case Key => Totals(0, changes, changes, 0)
    case Tombstoned => Totals(changes, 0, 0, 0)
    case Marking => Totals(0, 0, 0, changes)
  }

  predicate ScopeEmpty(db: Db) {
    && (forall m <- db.memory :: db.memory[m].state == Erased)
    && (forall c <- db.claims.history :: db.claims.history[c].erased)
    && db.details.keys == map[]
  }

  function ExecNote(db: Db, audit: Audit, changes: nat, note: AuditStatement): Progress {
    var receipts := audit.receipts;
    var journal := audit.journal;
    match note
    case InsertReceipt(target, operation) =>
      if target in receipts || (exists t <- receipts :: receipts[t].operation == operation)
         || (target.OneMemory? && !Present(db, target.id)) then Failed
      else Running(db, audit.(receipts := receipts[target := Receipt(operation, false, false)]), 1)
    case DropDelivered =>
      if WholeScope in receipts && receipts[WholeScope].delivered then
        Running(db, audit.(receipts := receipts - {WholeScope}), 1)
      else Running(db, audit, 0)
    case StillDraining(operation) =>
      if WholeScope !in receipts then Running(db, audit, 0)
      else if receipts[WholeScope].operation == operation && !receipts[WholeScope].ready then Running(db, audit, 1)
      else Failed
    case OpenBatch(operation) =>
      Running(db, audit.(journal := journal[NextBatch(journal) := JournalRow(operation, ZERO)]), 1)
    case AddChanges(tag, operation) =>
      if journal == map[] || journal[LastBatch(journal)].operation != operation then Running(db, audit, 0)
      else
        var last := LastBatch(journal);
        Running(db, audit.(journal := journal[last := journal[last].(
          totals := Plus(journal[last].totals, Credit(tag, changes)))]), 1)
    case CloseBatch(operation) =>
      var empty := set b | b in journal && journal[b].operation == operation
                           && journal[b].totals.memories == 0 && journal[b].totals.derivatives == 0
                           && journal[b].totals.marked == 0;
      Running(db, audit.(journal := journal - empty), |empty|)
    case MarkReady(target) =>
      if target !in receipts then Running(db, audit, 0)
      else Running(db, audit.(receipts := receipts[target := receipts[target].(ready := true)]), 1)
    case MarkReadyIfEmpty(operation) =>
      if WholeScope in receipts && receipts[WholeScope].operation == operation && ScopeEmpty(db) then
        Running(db, audit.(receipts := receipts[WholeScope := receipts[WholeScope].(ready := true)]), 1)
      else Running(db, audit, 0)
    case MarkDelivered(target, operation) =>
      if target in receipts && receipts[target].operation == operation then
        Running(db, audit.(receipts := receipts[target := receipts[target].(delivered := true)]), 1)
      else Running(db, audit, 0)
  }

  function ExecLine(p: Progress, line: Line): Progress
    requires p.Running?
  {
    match line
    case Do(st) =>
      (match Exec(p.db, st) case Abort => Failed case Ran(db, n) => Running(db, p.audit, n))
    case Note(note) => ExecNote(p.db, p.audit, p.changes, note)
  }

  function ExecLines(p: Progress, lines: seq<Line>): Progress
    decreases |lines|
  {
    if lines == [] || p.Failed? then p else ExecLines(ExecLine(p, lines[0]), lines[1..])
  }

  function Plain(sts: seq<Statement>): seq<Line>
    decreases |sts|
  {
    if sts == [] then [] else [Do(sts[0])] + Plain(sts[1..])
  }

  // ------------------------------------------------- accounted erasure batches

  datatype Range = Range(lo: nat, hi: nat) {
    predicate Contains(i: nat) { lo <= i < hi }
  }

  /** Which statements of a destructive batch are counted, by their place in it. */
  datatype Counts = Counts(sweep: Range, keys: Range, queue: Range, tombstones: Range, marked: Option<nat>)

  function TagAt(counts: Counts, index: nat): Tag {
    if counts.keys.Contains(index) then Key
    else if counts.sweep.Contains(index) || counts.queue.Contains(index) then Derivative
    else if counts.tombstones.Contains(index) then Tombstoned
    else if counts.marked == Some(index) then Marking
    else Uncounted
  }

  /** Each counted statement is followed at once by the journal update that reads `changes()`. */
  function Interleaved(sts: seq<Statement>, counts: Counts, operation: Operation, from: nat): seq<Line>
    decreases |sts|
  {
    if sts == [] then []
    else
      var tag := TagAt(counts, from);
      (if tag.Uncounted? then [Do(sts[0])] else [Do(sts[0]), Note(AddChanges(tag, operation))])
      + Interleaved(sts[1..], counts, operation, from + 1)
  }

  function AccountedBatch(sts: seq<Statement>, counts: Counts, operation: Operation): seq<Line> {
    [Note(OpenBatch(operation))] + Interleaved(sts, counts, operation, 0) + [Note(CloseBatch(operation))]
  }

  /** A destructive batch: its statements, and the spans that are counted. */
  datatype Batch = Batch(statements: seq<Statement>, counts: Counts)

  function BatchOf(head: seq<Statement>, keys: seq<Statement>, shells: seq<Shell>, now: nat,
                   tail: seq<Statement>, marks: bool): Batch {
    var keysEnd := |head| + |keys|;
    var moves := MoveStatements(shells);
    var tombs := TombstoneStatements(shells, now);
    var queue := QueueStatements(shells);
    var tombsAt := keysEnd + |moves|;
    var queueAt := tombsAt + |tombs|;
    Batch(head + keys + moves + tombs + queue + tail,
          Counts(Range(0, |head|), Range(|head|, keysEnd), Range(queueAt, queueAt + |queue|),
                 Range(tombsAt, queueAt), if marks then Some(queueAt + |queue|) else None))
  }

  /** The batch that erases one memory, and with `cascade` everything derived from it. */
  function EraseBatch(target: MemoryId, shells: seq<Shell>, cascade: bool, now: nat): Batch {
    BatchOf(SweepStatements(TABLES, shells), DestroyStatements(shells), shells, now,
            [OnRows(MarkDerived(target)), OnClaims(if cascade then EraseClaims(target) else MarkClaims(target))], true)
  }

  /** One bounded batch of a scope erasure. */
  function DrainBatch(shells: seq<Shell>, now: nat): Batch {
    BatchOf(SweepStatements(TABLES, shells), [OnDetails(DestroyKeys)], shells, now,
            [OnClaims(EraseScopeClaims), OnClaims(ClearClaimSources)], false)
  }

  function EraseLines(target: MemoryId, shells: seq<Shell>, cascade: bool, now: nat): seq<Line> {
    var batch := EraseBatch(target, shells, cascade, now);
    [Note(InsertReceipt(OneMemory(target), EraseMemory(target)))]
    + AccountedBatch(batch.statements, batch.counts, EraseMemory(target))
    + [Note(MarkReady(OneMemory(target)))]
  }

  function DrainLines(operation: Operation, shells: seq<Shell>, now: nat): seq<Line> {
    var batch := DrainBatch(shells, now);
    [Note(StillDraining(operation))]
    + AccountedBatch(batch.statements, batch.counts, operation)
    + [Note(MarkReadyIfEmpty(operation))]
  }

  /** The shells one drain reads. */
  function DrainShells(db: Db, batch: nat): seq<Shell> {
    var present := set m | m in db.memory && db.memory[m].state != Erased;
    var limit := if batch < MAX_ACCOUNTED_ERASURE_BATCH then batch else MAX_ACCOUNTED_ERASURE_BATCH;
    var ids := FirstById(present, limit);
    FirstByIdPicks(present, limit);
    ShellsOf(db, ids)
  }

  /** Memories of this scope that name `id` among their parents. */
  function DerivedOf(db: Db, id: MemoryId): set<MemoryId> {
    set p | p in db.details.derivation && p.parent == id :: p.child
  }

  /** The journal of one operation, summed. */
  function SumOf(journal: map<nat, JournalRow>, operation: Operation, below: nat): Totals {
    if below == 0 then ZERO
    else if below - 1 in journal && journal[below - 1].operation == operation then
      Plus(SumOf(journal, operation, below - 1), journal[below - 1].totals)
    else SumOf(journal, operation, below - 1)
  }

  function TotalsOf(journal: map<nat, JournalRow>, operation: Operation): Totals {
    SumOf(journal, operation, NextBatch(journal))
  }

  function RowsOf(journal: map<nat, JournalRow>, operation: Operation): set<nat> {
    set b | b in journal && journal[b].operation == operation
  }

  function BatchesOf(journal: map<nat, JournalRow>, operation: Operation): nat {
    |RowsOf(journal, operation)|
  }
}
