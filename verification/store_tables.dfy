/** The rows one scope keeps, and what each SQL statement of the store does to them.

    A statement either runs, reporting how many rows it changed, or violates a
    constraint. The guards of the store are statements that violate a NOT NULL,
    primary key, unique or foreign key constraint on purpose; a transaction is a
    list of statements that commits whole or not at all. */
module StoreTables {

  import opened Ordered
  import opened Wrappers
  import opened Succession

  type KeyId = nat
  type ClaimId = nat
  type Revision = nat

  datatype Kind = Observation | Fact | Preference | Decision | Task | Reference | PersonNote | Correction

  datatype State = Active | Quarantined | Superseded | Expired | Erased

  datatype Content = Content(text: string, title: Option<string>, media: seq<string>, parents: seq<MemoryId>)

  const BLANK := Content("", None, [], [])

  /** The serialized document, the source of truth for what a memory says. */
  datatype Record = Record(
    kind: Kind, state: State, successor: Option<MemoryId>, content: Content,
    uses: nat, lastUsed: nat, created: nat, updated: nat)

  /** What the unique index compares. The digest is injective, so it is its own input. */
  datatype Fingerprint = Blanked | Legacy(digest: string) | Of(kind: Kind, text: string)

  datatype MemoryRow = MemoryRow(
    kind: Kind, state: State, supersededBy: Option<MemoryId>,
    fingerprint: Fingerprint, fingerprintVersion: nat, bodyBytes: nat,
    created: nat, updated: nat, validUntil: Option<nat>, originErased: bool, record: Record)

  datatype Identity = Identity(modelId: string, dims: nat, normalized: bool)

  datatype Model = Model(identity: Identity, firstSeen: nat, active: bool)

  datatype Parentage = Parentage(child: MemoryId, parent: MemoryId)

  datatype SourceKey = SourceKey(memory: MemoryId, ordinal: nat)

  datatype Piece = Piece(memory: MemoryId, revision: Revision, ordinal: nat)

  datatype WorkKey = WorkKey(memory: MemoryId, revision: Revision, modelId: string)

  datatype WorkState = Open | Done | Dead

  datatype Attempt = Attempt(memory: MemoryId, number: nat)

  datatype ClaimRow = ClaimRow(content: Option<string>, originErased: bool, erased: bool)

  datatype ClaimSource = ClaimSource(claim: ClaimId, memory: MemoryId)

  datatype Bucket = Bucket(kind: Kind, state: State)

  /** Everything kept about a memory outside its own row: what erasure must reach. */
  datatype Details = Details(
    provenance: set<MemoryId>,
    derivation: set<Parentage>,
    sources: set<SourceKey>,
    keys: map<KeyId, Option<MemoryId>>,
    chunks: set<Piece>,
    vectors: set<Piece>,
    work: map<WorkKey, WorkState>,
    attempts: set<Attempt>)

  datatype ClaimTables = ClaimTables(history: map<ClaimId, ClaimRow>, sources: set<ClaimSource>)

  datatype Db = Db(
    memory: map<MemoryId, MemoryRow>,
    counters: map<Bucket, int>,
    models: map<Revision, Model>,
    details: Details,
    claims: ClaimTables)

  const EMPTY := Db(map[], map[], map[], Details({}, {}, {}, map[], {}, {}, map[], {}), ClaimTables(map[], {}))

  /** The derivative tables an erasure sweeps. */
  datatype Table = VectorTable | ChunkTable | ProvenanceTable | DerivationTable | SourceTable

  /** Statements that write nothing: they hold, or they abort the transaction. */
  datatype Check =
    | NoModel
    | ModelActive(revision: Revision, modelId: string)
    | IdentityActive(revision: Revision, identity: Identity)
    | MemoryLive(id: MemoryId)
    | CoverageComplete

  datatype RowStatement =
    | InsertMemory(id: MemoryId, row: MemoryRow)
    | Merge(id: MemoryId, expected: Record, merged: Record)
    | Supersede(id: MemoryId, heir: MemoryId, expected: Record, replaced: Record)
    | SetValidUntil(id: MemoryId, until: Option<nat>)
    | Expire(ids: set<MemoryId>, now: nat)
    | Redigest(id: MemoryId, expected: Record, fingerprint: Fingerprint)
    | Tombstone(id: MemoryId, now: nat, blank: Record)
    | MarkDerived(parent: MemoryId)

  datatype CounterStatement =
    | Adjust(bucket: Bucket, delta: int)
    | CountOutOfActive(kind: Kind, ids: set<MemoryId>)
    | CountIntoExpired(kind: Kind, ids: set<MemoryId>)
    | DecrementLive(id: MemoryId)
    | IncrementErased(id: MemoryId)

  datatype RegistryStatement =
    | Deactivate(revision: Revision)
    | InsertModel(revision: Revision, identity: Identity, firstSeen: nat)
    | TouchInactive(revision: Revision)

  datatype DetailStatement =
    | InsertProvenance(id: MemoryId)
    | InsertDerivation(child: MemoryId, parent: MemoryId)
    | AppendSource(id: MemoryId)
    | InsertKey(key: KeyId, covers: Option<MemoryId>)
    | StageWork(work: WorkKey)
    | CompleteWork(work: WorkKey)
    | FailWork(work: WorkKey, number: nat, dead: bool)
    | RequeueWork(work: WorkKey)
    | DeleteVectors(id: MemoryId, revision: Revision)
    | DeleteChunks(id: MemoryId, revision: Revision)
    | InsertChunk(piece: Piece)
    | InsertVector(piece: Piece)
    | DropVectors(revision: Revision)
    | DropChunks(revision: Revision)
    | Sweep(table: Table, id: MemoryId)
    | DestroyKeysFor(id: MemoryId)
    | DestroyKeys
    | DeleteAttempts(id: MemoryId)
    | DeleteQueue(id: MemoryId)

  datatype ClaimStatement =
    | InsertClaim(claim: ClaimId, content: string, cites: set<MemoryId>)
    | MarkClaims(source: MemoryId)
    | EraseClaims(source: MemoryId)
    | EraseScopeClaims
    | ClearClaimSources

  /** A statement, by the tables it writes. */
  datatype Statement =
    | Guard(check: Check)
    | OnRows(row: RowStatement)
    | OnCounters(counter: CounterStatement)
    | OnRegistry(registry: RegistryStatement)
    | OnDetails(detail: DetailStatement)
    | OnClaims(claim: ClaimStatement)

  /** What a write leaves in the tables it names, and how many rows it changed. */
  datatype Written<+T> = Refused | Wrote(table: T, changes: nat)

  datatype Outcome = Abort | Ran(db: Db, changes: nat)

  predicate Present(db: Db, id: MemoryId) {
    id in db.memory && db.memory[id].state != Erased
  }

  /** Live for the embedding pipeline: neither erased nor quarantined. */
  predicate Embeddable(db: Db, id: MemoryId) {
    Present(db, id) && db.memory[id].state != Quarantined
  }

  predicate IsActive(db: Db, revision: Revision) {
    revision in db.models && db.models[revision].active
  }

  predicate HasVector(db: Db, id: MemoryId, revision: Revision) {
    exists p <- db.details.vectors :: p.memory == id && p.revision == revision
  }

  /** Another live row of the scope already carries this fingerprint. */
  predicate Clashes(db: Db, id: MemoryId, fingerprint: Fingerprint) {
    exists m <- db.memory :: m != id && db.memory[m].state != Erased && db.memory[m].fingerprint == fingerprint
  }

  function Count(db: Db, bucket: Bucket): int {
    if bucket in db.counters then db.counters[bucket] else 0
  }

  function BucketOf(row: MemoryRow): Bucket {
    Bucket(row.kind, row.state)
  }

  /** The rows an expiry batch of `ids` would move, of one kind. */
  function Claimed(db: Db, kind: Kind, ids: set<MemoryId>): set<MemoryId> {
    set m | m in db.memory && m in ids && db.memory[m].kind == kind && db.memory[m].state == Active
  }

  function Links(db: Db): map<MemoryId, MemoryId> {
    map m | m in db.memory && db.memory[m].supersededBy.Some? :: db.memory[m].supersededBy.value
  }

  function NextOrdinal(db: Db, id: MemoryId): nat {
    var taken := set s | s in db.details.sources && s.memory == id :: s.ordinal;
    if taken == {} then 0 else Highest(taken) + 1
  }

  /** Whether a guard lets the transaction go on. */
  predicate Holds(db: Db, check: Check) {
    match check
    case NoModel => !exists r <- db.models :: db.models[r].active
    case ModelActive(revision, modelId) => IsActive(db, revision) && db.models[revision].identity.modelId == modelId
    case IdentityActive(revision, identity) => IsActive(db, revision) && db.models[revision].identity == identity
    case MemoryLive(id) => Embeddable(db, id)
    case CoverageComplete =>
      forall m <- db.memory :: Embeddable(db, m) ==>
        exists r <- db.models :: db.models[r].active && HasVector(db, m, r)
  }

  /** Writes to `memory`. A row whose guard fails is set to NULL, which the column refuses. */
  function WriteRow(db: Db, st: RowStatement): Written<map<MemoryId, MemoryRow>> {
    var memory := db.memory;
    match st
    case InsertMemory(id, row) =>
      if id in memory || (row.state != Erased && Clashes(db, id, row.fingerprint)) then Refused
      else Wrote(memory[id := row], 1)
    case Merge(id, expected, merged) =>
      if id !in memory then Wrote(memory, 0)
      else if memory[id].record == expected && memory[id].state != Erased then
        Wrote(memory[id := memory[id].(record := merged, updated := merged.updated)], 1)
      else Refused
    case Supersede(id, heir, expected, replaced) =>
      if id !in memory then Wrote(memory, 0)
      else if memory[id].record == expected && memory[id].state != Erased && id !in Successors(Links(db), heir) then
        Wrote(memory[id := memory[id].(
          state := Superseded, supersededBy := Some(heir), record := replaced, updated := replaced.updated)], 1)
      else Refused
    case SetValidUntil(id, until) =>
      if !Present(db, id) then Wrote(memory, 0)
      else Wrote(memory[id := memory[id].(validUntil := until)], 1)
    case Expire(ids, now) =>
      var due := set m | m in memory && m in ids && memory[m].state == Active;
      Wrote(map m | m in memory :: if m in due then ExpiredRow(memory[m], now) else memory[m], |due|)
    case Redigest(id, expected, fingerprint) =>
      if !Present(db, id) || memory[id].fingerprintVersion >= 1 then Wrote(memory, 0)
      else if memory[id].record != expected || Clashes(db, id, fingerprint) then Refused
      else Wrote(memory[id := memory[id].(fingerprint := fingerprint, fingerprintVersion := 1)], 1)
    case Tombstone(id, now, blank) =>
      if !Present(db, id) then Wrote(memory, 0)
      else Wrote(memory[id := memory[id].(
          state := Erased, supersededBy := None, fingerprint := Blanked, bodyBytes := 0,
          validUntil := None, updated := now, record := blank)], 1)
    case MarkDerived(parent) =>
      var hit := set m | m in memory && !memory[m].originErased && memory[m].state != Erased
                         && Parentage(m, parent) in db.details.derivation;
      Wrote(map m | m in memory :: if m in hit then memory[m].(originErased := true) else memory[m], |hit|)
  }

  /** Writes to `scope_counter`. An upsert inserts the delta when the bucket has no row yet;
      the plain updates of an expiry batch leave a missing bucket missing. */
  function WriteCounter(db: Db, st: CounterStatement): Written<map<Bucket, int>> {
    var counters := db.counters;
    match st
    case Adjust(bucket, delta) =>
      Wrote(counters[bucket := if bucket in counters then Max(0, counters[bucket] + delta) else delta], 1)
    case CountOutOfActive(kind, ids) =>
      var bucket := Bucket(kind, Active);
      if bucket !in counters then Wrote(counters, 0)
      else Wrote(counters[bucket := Max(0, counters[bucket] - |Claimed(db, kind, ids)|)], 1)
    case CountIntoExpired(kind, ids) =>
      var bucket := Bucket(kind, Expired);
      if bucket !in counters then Wrote(counters, 0)
      else Wrote(counters[bucket := counters[bucket] + |Claimed(db, kind, ids)|], 1)
    case DecrementLive(id) =>
      if !Present(db, id) then Wrote(counters, 0)
      else
        var bucket := BucketOf(db.memory[id]);
        Wrote(counters[bucket := Count(db, bucket) - 1], 1)
    case IncrementErased(id) =>
      if !Present(db, id) then Wrote(counters, 0)
      else
        var bucket := Bucket(db.memory[id].kind, Erased);
        Wrote(counters[bucket := Count(db, bucket) + 1], 1)
  }

  /** Writes to `embedding_model`: NOT NULL, the primary key, and the one-active index. */
  function WriteRegistry(models: map<Revision, Model>, st: RegistryStatement): Written<map<Revision, Model>> {
    match st
    case Deactivate(revision) =>
      if exists r <- models :: models[r].active && revision < r then Refused
      else
        var was := set r | r in models && models[r].active;
        Wrote(map r | r in models :: models[r].(active := false), |was|)
    case InsertModel(revision, identity, firstSeen) =>
      if exists r <- models :: revision < r then Refused
      else if exists r <- models :: r != revision && models[r].active then Refused
      else if revision !in models then Wrote(models[revision := Model(identity, firstSeen, true)], 1)
      else if models[revision].identity == identity then
        Wrote(models[revision := models[revision].(active := true)], 1)
      else Refused
    case TouchInactive(revision) =>
      Wrote(models, if revision in models && !models[revision].active then 1 else 0)
  }

  /** Writes to the rows kept beside a memory: derivatives, provenance, keys and queue. */
  function WriteDetail(db: Db, st: DetailStatement): Written<Details> {
    var t := db.details;
    match st
    case InsertProvenance(id) =>
      if id !in db.memory || id in t.provenance then Refused
      else Wrote(t.(provenance := t.provenance + {id}), 1)
    case InsertDerivation(child, parent) =>
      if child !in db.memory || Parentage(child, parent) in t.derivation then Refused
      else Wrote(t.(derivation := t.derivation + {Parentage(child, parent)}), 1)
    case AppendSource(id) =>
      if id !in db.memory then Refused
      else Wrote(t.(sources := t.sources + {SourceKey(id, NextOrdinal(db, id))}), 1)
    case InsertKey(key, covers) =>
      if key in t.keys then Refused else Wrote(t.(keys := t.keys[key := covers]), 1)
    case StageWork(key) =>
      if key in t.work then Wrote(t, 0) else Wrote(t.(work := t.work[key := Open]), 1)
    case CompleteWork(key) =>
      if key !in t.work then Wrote(t, 0) else Wrote(t.(work := t.work[key := Done]), 1)
    case FailWork(key, number, dead) =>
      if key !in t.work then Wrote(t, 0)
      else Wrote(t.(work := t.work[key := if dead then Dead else Open],
                    attempts := t.attempts + {Attempt(key.memory, number)}), 1)
    case RequeueWork(key) =>
      if key !in t.work then Wrote(t, 0) else Wrote(t.(work := t.work[key := Open]), 1)
    case DeleteVectors(id, revision) =>
      var gone := set p | p in t.vectors && p.memory == id && p.revision == revision;
      Wrote(t.(vectors := t.vectors - gone), |gone|)
    case DeleteChunks(id, revision) =>
      DeleteChunkRows(t, set p | p in t.chunks && p.memory == id && p.revision == revision)
    case InsertChunk(piece) =>
      if piece in t.chunks || piece.revision !in db.models then Refused
      else Wrote(t.(chunks := t.chunks + {piece}), 1)
    case InsertVector(piece) =>
      if piece in t.vectors || piece !in t.chunks || piece.revision !in db.models then Refused
      else Wrote(t.(vectors := t.vectors + {piece}), 1)
    case DropVectors(revision) =>
      var gone := set p | p in t.vectors && p.revision == revision && revision in db.models && !db.models[revision].active;
      Wrote(t.(vectors := t.vectors - gone), |gone|)
    case DropChunks(revision) =>
      DeleteChunkRows(t, set p | p in t.chunks && p.revision == revision && revision in db.models && !db.models[revision].active)
    case Sweep(table, id) => SweepTable(t, table, id)
    case DestroyKeysFor(id) =>
      var gone := set k | k in t.keys && t.keys[k] == Some(id);
      Wrote(t.(keys := t.keys - gone), |gone|)
    case DestroyKeys => Wrote(t.(keys := map[]), |t.keys|)
    case DeleteAttempts(id) =>
      var gone := set a | a in t.attempts && a.memory == id;
      Wrote(t.(attempts := t.attempts - gone), |gone|)
    case DeleteQueue(id) =>
      var gone := set k | k in t.work && k.memory == id;
      Wrote(t.(work := t.work - gone), |gone|)
  }

  /** A chunk that a vector still references cannot be deleted. */
  function DeleteChunkRows(t: Details, gone: set<Piece>): Written<Details> {
    if exists p <- gone :: p in t.vectors then Refused
    else Wrote(t.(chunks := t.chunks - gone), |t.chunks * gone|)
  }

  /** `DELETE FROM <table>` for one memory. */
  function SweepTable(t: Details, table: Table, id: MemoryId): Written<Details> {
    match table
    case VectorTable =>
      var gone := set p | p in t.vectors && p.memory == id;
      Wrote(t.(vectors := t.vectors - gone), |gone|)
    case ChunkTable =>
      DeleteChunkRows(t, set p | p in t.chunks && p.memory == id)
    case ProvenanceTable =>
      var gone := set m | m in t.provenance && m == id;
      Wrote(t.(provenance := t.provenance - gone), |gone|)
    case DerivationTable =>
      var gone := set p | p in t.derivation && p.child == id;
      Wrote(t.(derivation := t.derivation - gone), |gone|)
    case SourceTable =>
      var gone := set s | s in t.sources && s.memory == id;
      Wrote(t.(sources := t.sources - gone), |gone|)
  }

  /** Writes to the claim tables. */
  function WriteClaim(t: ClaimTables, st: ClaimStatement): Written<ClaimTables> {
    match st
    case InsertClaim(claim, content, cites) =>
      if claim in t.history then Refused
      else Wrote(ClaimTables(t.history[claim := ClaimRow(Some(content), false, false)],
                             t.sources + set m | m in cites :: ClaimSource(claim, m)), 1)
    case MarkClaims(source) =>
      var hit := set c | c in t.history && !t.history[c].erased && ClaimSource(c, source) in t.sources;
      Wrote(t.(history := map c | c in t.history ::
        if c in hit then t.history[c].(originErased := true) else t.history[c]), |hit|)
    case EraseClaims(source) =>
      var hit := set c | c in t.history && !t.history[c].erased && ClaimSource(c, source) in t.sources;
      Wrote(t.(history := map c | c in t.history ::
        if c in hit then ClaimRow(None, true, true) else t.history[c]), |hit|)
    case EraseScopeClaims =>
      var hit := set c | c in t.history && !t.history[c].erased;
      Wrote(t.(history := map c | c in t.history ::
        if c in hit then ClaimRow(None, true, true) else t.history[c]), |hit|)
    case ClearClaimSources => Wrote(t.(sources := {}), |t.sources|)
  }

  /** One statement inside a transaction. */
  function Exec(db: Db, st: Statement): Outcome {
    match st
    case Guard(check) => if Holds(db, check) then Ran(db, 0) else Abort
    case OnRows(row) =>
      (match WriteRow(db, row) case Refused => Abort case Wrote(memory, n) => Ran(db.(memory := memory), n))
    case OnCounters(counter) =>
      (match WriteCounter(db, counter) case Refused => Abort case Wrote(counters, n) => Ran(db.(counters := counters), n))
    case OnRegistry(registry) =>
      (match WriteRegistry(db.models, registry) case Refused => Abort case Wrote(models, n) => Ran(db.(models := models), n))
    case OnDetails(detail) =>
      (match WriteDetail(db, detail) case Refused => Abort case Wrote(details, n) => Ran(db.(details := details), n))
    case OnClaims(claim) =>
      (match WriteClaim(db.claims, claim) case Refused => Abort case Wrote(claims, n) => Ran(db.(claims := claims), n))
  }

  function ExpiredRow(row: MemoryRow, now: nat): MemoryRow {
    row.(state := Expired, updated := now, record := row.record.(state := Expired, updated := now))
  }

  function Max(a: int, b: int): int {
    if a < b then b else a
  }

  /** The statements in order, or nothing at all. */
  function ExecAll(db: Db, sts: seq<Statement>): Outcome
    decreases |sts|
  {
    if sts == [] then Ran(db, 0)
    else match Exec(db, sts[0])
      case Abort => Abort
      case Ran(next, _) => ExecAll(next, sts[1..])
  }
}
