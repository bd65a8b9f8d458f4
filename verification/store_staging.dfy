/** What each operation of the store stages, as a function of what it read.

    Every operation reads first and commits later, so the reads are parameters:
    each may come from a different moment, and none need still be true when the
    statements run. `None` is an operation that refused to stage anything. */
module StoreStaging {

  import opened Ordered
  import opened Wrappers
  import opened Succession
  import opened StoreTables

  /** A memory the write gate admitted: active, or quarantined for review. */
  datatype Candidate = Candidate(
    id: MemoryId, kind: Kind, quarantined: bool, content: Content, bodyBytes: nat, created: nat)

  const MAX_CHAIN := 10_000
  const MAX_USES := 0xffff_ffff
  const MAX_ERASURE_BATCH := 500
  const MAX_ACCOUNTED_ERASURE_BATCH := 200

  // ---------------------------------------------------------------- reading

  function ActiveRevisions(db: Db): set<Revision> {
    set r | r in db.models && db.models[r].active
  }

  /** The observation every capture takes of the registry. */
  function Observe(db: Db): (seen: Option<Revision>)
    ensures seen.Some? ==> IsActive(db, seen.value)
    ensures seen.None? ==> Holds(db, NoModel)
  {
    assert forall r | r in db.models && db.models[r].active :: r in ActiveRevisions(db);
    if ActiveRevisions(db) == {} then None else Some(Highest(ActiveRevisions(db)))
  }

  /** The live row that already holds a fingerprint. */
  function Holder(db: Db, fingerprint: Fingerprint): Option<MemoryId> {
    var rows := set m | m in db.memory && db.memory[m].state != Erased && db.memory[m].fingerprint == fingerprint;
    if rows == {} then None else Some(Lowest(rows))
  }

  // ---------------------------------------------------------------- capture

  function StateOf(c: Candidate): State {
    if c.quarantined then Quarantined else Active
  }

  function FingerprintOf(kind: Kind, content: Content): Fingerprint {
    Of(kind, content.text)
  }

  function RowOf(c: Candidate): MemoryRow {
    MemoryRow(c.kind, StateOf(c), None, FingerprintOf(c.kind, c.content), 0, c.bodyBytes, c.created, c.created, None, false,
              Record(c.kind, StateOf(c), None, c.content, 0, c.created, c.created, c.created))
  }

  function Derivations(child: MemoryId, parents: seq<MemoryId>): seq<Statement>
    decreases |parents|
  {
    if parents == [] then []
    else [OnDetails(InsertDerivation(child, parents[0]))] + Derivations(child, parents[1..])
  }

  /** The embedding work of one memory, or the guard that no model became active. */
  function EmbeddingStatements(observed: Db, id: MemoryId): seq<Statement> {
    match Observe(observed)
    case None => [Guard(NoModel)]
    case Some(revision) =>
      var modelId := observed.models[revision].identity.modelId;
      [Guard(ModelActive(revision, modelId)), OnDetails(StageWork(WorkKey(id, revision, modelId)))]
  }

  function KeyStatements(key: Option<KeyId>, covers: Option<MemoryId>): seq<Statement> {
    if key.Some? then [OnDetails(InsertKey(key.value, covers))] else []
  }

  function InsertStatements(observed: Db, c: Candidate, key: Option<KeyId>): seq<Statement> {
    [OnRows(InsertMemory(c.id, RowOf(c))), OnDetails(InsertProvenance(c.id))]
    + Derivations(c.id, c.content.parents)
    + [OnCounters(Adjust(Bucket(c.kind, StateOf(c)), 1))]
    + EmbeddingStatements(observed, c.id)
    + [OnDetails(AppendSource(c.id))]
    + KeyStatements(key, Some(c.id))
  }

  /** The media a repeat brings that are not there yet, each once, in order. */
  function Unseen(have: seq<string>, more: seq<string>): seq<string>
    decreases |more|
  {
    if more == [] then []
    else if more[0] in have then Unseen(have, more[1..])
    else [more[0]] + Unseen(have + [more[0]], more[1..])
  }

  /** Fold a repeated capture into the row that already holds the content. */
  function Merged(existing: Record, c: Candidate): Record {
    existing.(
      uses := if existing.uses < MAX_USES then existing.uses + 1 else existing.uses,
      lastUsed := c.created,
      updated := if existing.updated < c.created then c.created else existing.updated,
      content := existing.content.(
        title := if existing.content.title.None? then c.content.title else existing.content.title,
        media := existing.content.media + Unseen(existing.content.media, c.content.media)))
  }

  function MergeStatements(observed: Db, id: MemoryId, expected: Record, c: Candidate, key: Option<KeyId>): seq<Statement> {
    [OnRows(Merge(id, expected, Merged(expected, c))), OnDetails(AppendSource(id))]
    + EmbeddingStatements(observed, id)
    + KeyStatements(key, Some(id))
  }

  /** A capture: three reads, then an insert or a merge. */
  function CaptureStatements(observed: Db, holderRead: Db, rowRead: Db, c: Candidate, key: Option<KeyId>, ceiling: nat): Option<seq<Statement>> {
    match Holder(holderRead, FingerprintOf(c.kind, c.content))
    case None => if c.bodyBytes <= ceiling then Some(InsertStatements(observed, c, key)) else None
    case Some(id) =>
      if !Present(rowRead, id) then None
      else Some(MergeStatements(observed, id, rowRead.memory[id].record, c, key))
  }

  // ----------------------------------------------------------- supersession

  datatype ChainCheck = Clear | ClosesCycle | TooLong

  /** The walk a supersession makes before it stages anything. */
  function WalkChain(next: map<MemoryId, MemoryId>, at: MemoryId, prior: MemoryId, steps: nat): ChainCheck
    requires steps <= MAX_CHAIN
    decreases MAX_CHAIN - steps
  {
    if at !in next then Clear
    else if next[at] == prior then ClosesCycle
    else if steps + 1 > MAX_CHAIN then TooLong
    else WalkChain(next, next[at], prior, steps + 1)
  }

  /** `walked` is what the walk read, one link at a time and each at its own moment. */
  function SupersedeStatements(walked: map<MemoryId, MemoryId>, rowRead: Db, prior: MemoryId, heir: MemoryId, at: nat): Option<seq<Statement>> {
    if prior == heir || WalkChain(walked, heir, prior, 0) != Clear || !Present(rowRead, prior) then None
    else
      var expected := rowRead.memory[prior].record;
      var replaced := expected.(state := Superseded, successor := Some(heir), updated := at);
      Some([OnRows(Supersede(prior, heir, expected, replaced)),
            OnCounters(Adjust(Bucket(expected.kind, expected.state), -1)),
            OnCounters(Adjust(Bucket(expected.kind, Superseded), 1))])
  }

  // ----------------------------------------------------------------- expiry

  function Due(db: Db, now: nat): set<MemoryId> {
    set m | m in db.memory && db.memory[m].state == Active
            && db.memory[m].validUntil.Some? && db.memory[m].validUntil.value <= now
  }

  /** The kinds of a batch, read again, each named once. */
  ghost predicate KindsOf(db: Db, ids: set<MemoryId>, kinds: seq<Kind>) {
    && (forall i, j | 0 <= i < j < |kinds| :: kinds[i] != kinds[j])
    && (forall m | m in ids && m in db.memory :: db.memory[m].kind in kinds)
  }

  function PrepareExpiry(kinds: seq<Kind>): seq<Statement>
    decreases |kinds|
  {
    if kinds == [] then []
    else [OnCounters(Adjust(Bucket(kinds[0], Expired), 0)), OnCounters(Adjust(Bucket(kinds[0], Active), 0))]
         + PrepareExpiry(kinds[1..])
  }

  function ExpiryCounters(kinds: seq<Kind>, ids: set<MemoryId>): seq<Statement>
    decreases |kinds|
  {
    if kinds == [] then []
    else [OnCounters(CountOutOfActive(kinds[0], ids)), OnCounters(CountIntoExpired(kinds[0], ids))]
         + ExpiryCounters(kinds[1..], ids)
  }

  function ExpiryStatements(kinds: seq<Kind>, ids: set<MemoryId>, now: nat): seq<Statement> {
    ExpiryCounters(kinds, ids) + [OnRows(Expire(ids, now))]
  }

  // --------------------------------------------------------------- redigest

  function Undigested(db: Db): set<MemoryId> {
    set m | m in db.memory && db.memory[m].state != Erased && db.memory[m].fingerprintVersion < 1
  }

  function RedigestStatements(db: Db, ids: seq<MemoryId>): seq<Statement>
    requires forall m | m in ids :: m in db.memory
    decreases |ids|
  {
    if ids == [] then []
    else
      var record := db.memory[ids[0]].record;
      [OnRows(Redigest(ids[0], record, FingerprintOf(record.kind, record.content)))] + RedigestStatements(db, ids[1..])
  }

  // -------------------------------------------------------------- embedding

  /** `(chunk, vector)` pairs, in chunk order from `ordinal` up. */
  function PieceStatements(id: MemoryId, revision: Revision, ordinal: nat, count: nat): seq<Statement>
    decreases count
  {
    if count == 0 then []
    else [OnDetails(InsertChunk(Piece(id, revision, ordinal))), OnDetails(InsertVector(Piece(id, revision, ordinal)))]
         + PieceStatements(id, revision, ordinal + 1, count - 1)
  }

  /** A worker's commit: guards, the old rows out, the new rows in, the work done. */
  function VectorStatements(work: WorkKey, identity: Identity, count: nat): seq<Statement> {
    [Guard(MemoryLive(work.memory)), Guard(IdentityActive(work.revision, identity)),
     OnDetails(DeleteVectors(work.memory, work.revision)), OnDetails(DeleteChunks(work.memory, work.revision))]
    + PieceStatements(work.memory, work.revision, 0, count)
    + [OnDetails(CompleteWork(work))]
  }

  /** Live memories after the cursor that have no vector at the revision. */
  function Missing(db: Db, revision: Revision, after: Option<MemoryId>): set<MemoryId> {
    set m | m in db.memory && Embeddable(db, m) && (after.None? || after.value < m) && !HasVector(db, m, revision)
  }

  function ReembedStatements(ids: seq<MemoryId>, revision: Revision, modelId: string): seq<Statement>
    decreases |ids|
  {
    if ids == [] then []
    else [Guard(MemoryLive(ids[0])), Guard(ModelActive(revision, modelId)),
          OnDetails(StageWork(WorkKey(ids[0], revision, modelId)))]
         + ReembedStatements(ids[1..], revision, modelId)
  }

  function ActivateStatements(revision: Revision, identity: Identity, now: nat): seq<Statement> {
    [OnRegistry(Deactivate(revision)), OnRegistry(InsertModel(revision, identity, now))]
  }

  function DropStatements(revision: Revision): seq<Statement> {
    [Guard(CoverageComplete), OnRegistry(TouchInactive(revision)),
     OnDetails(DropVectors(revision)), OnDetails(DropChunks(revision))]
  }

  // ---------------------------------------------------------------- erasure

  /** The few columns an erasure reads from a row it is about to empty. */
  datatype Shell = Shell(id: MemoryId, kind: Kind, created: nat)

  function ShellOf(db: Db, id: MemoryId): Shell
    requires id in db.memory
  {
    Shell(id, db.memory[id].kind, db.memory[id].created)
  }

  function ShellsOf(db: Db, ids: seq<MemoryId>): seq<Shell>
    requires forall m | m in ids :: m in db.memory
    decreases |ids|
  {
    if ids == [] then [] else [ShellOf(db, ids[0])] + ShellsOf(db, ids[1..])
  }

  /** A listing of a set, in whatever order the rows came. */
  ghost predicate Lists(ids: seq<MemoryId>, all: set<MemoryId>) {
    && (forall m :: m in ids <==> m in all)
    && (forall i, j | 0 <= i < j < |ids| :: ids[i] != ids[j])
  }

  /** The shells of the memories still there, each looked up on its own. */
  function ShellsAt(moments: seq<Db>, ids: seq<MemoryId>): seq<Shell>
    requires |moments| == |ids|
    decreases |ids|
  {
    if ids == [] then []
    else (if Present(moments[0], ids[0]) then [ShellOf(moments[0], ids[0])] else []) + ShellsAt(moments[1..], ids[1..])
  }

  /** The shells of an erasure: its own memory first, then what a cascade reaches, one level down. */
  function ErasureShells(read: Db, target: MemoryId, moments: seq<Db>, ids: seq<MemoryId>): seq<Shell>
    requires target in read.memory && |moments| == |ids|
  {
    [ShellOf(read, target)] + ShellsAt(moments, ids)
  }

  const TABLES := [VectorTable, ChunkTable, ProvenanceTable, DerivationTable, SourceTable]

  function BlankRecord(shell: Shell, now: nat): Record {
    Record(shell.kind, Erased, None, BLANK, 0, shell.created, shell.created, now)
  }

  function SweepOne(table: Table, shells: seq<Shell>): seq<Statement>
    decreases |shells|
  {
    if shells == [] then [] else [OnDetails(Sweep(table, shells[0].id))] + SweepOne(table, shells[1..])
  }

  function SweepStatements(tables: seq<Table>, shells: seq<Shell>): seq<Statement>
    decreases |tables|
  {
    if tables == [] then [] else SweepOne(tables[0], shells) + SweepStatements(tables[1..], shells)
  }

  function DestroyStatements(shells: seq<Shell>): seq<Statement>
    decreases |shells|
  {
    if shells == [] then [] else [OnDetails(DestroyKeysFor(shells[0].id))] + DestroyStatements(shells[1..])
  }

  function MoveStatements(shells: seq<Shell>): seq<Statement>
    decreases |shells|
  {
    if shells == [] then []
    else [OnCounters(DecrementLive(shells[0].id)), OnCounters(IncrementErased(shells[0].id))] + MoveStatements(shells[1..])
  }

  function TombstoneStatements(shells: seq<Shell>, now: nat): seq<Statement>
    decreases |shells|
  {
    if shells == [] then []
    else [OnRows(Tombstone(shells[0].id, now, BlankRecord(shells[0], now)))] + TombstoneStatements(shells[1..], now)
  }

  function QueueStatements(shells: seq<Shell>): seq<Statement>
    decreases |shells|
  {
    if shells == [] then []
    else [OnDetails(DeleteAttempts(shells[0].id)), OnDetails(DeleteQueue(shells[0].id))] + QueueStatements(shells[1..])
  }
}
