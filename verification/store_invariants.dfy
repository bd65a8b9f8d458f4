/** What every statement of the store keeps, one statement at a time. */
module StoreInvariants {

  import opened Wrappers
  import opened Succession
  import opened StoreTables

  /** Columns are projections of the record. */
  ghost predicate RowAgrees(row: MemoryRow) {
    && row.record.kind == row.kind
    && row.record.state == row.state
    && row.record.successor == row.supersededBy
    && row.record.created == row.created
    && row.record.updated == row.updated
    && (row.supersededBy.Some? <==> row.state == Superseded)
  }

  /** A tombstone says that something was erased and nothing about what it was. */
  ghost predicate RowBlank(row: MemoryRow) {
    row.fingerprint == Blanked && row.bodyBytes == 0 && row.validUntil == None
    && row.record.content == BLANK && row.record.uses == 0 && row.record.lastUsed == row.created
  }

  ghost predicate RowsAgree(db: Db) {
    forall m | m in db.memory :: RowAgrees(db.memory[m]) && (db.memory[m].state == Erased ==> RowBlank(db.memory[m]))
  }

  /** Two rows that still exist never carry one fingerprint. */
  ghost predicate FingerprintsUnique(db: Db) {
    forall m, n | Present(db, m) && Present(db, n) && m != n :: db.memory[m].fingerprint != db.memory[n].fingerprint
  }

  /** The active revision is the highest ever recorded, so there is at most one. */
  ghost predicate ActiveIsHighest(db: Db) {
    forall r: Revision, q: Revision | IsActive(db, r) && q in db.models :: q <= r
  }

  /** What the foreign keys of the schema say. */
  ghost predicate KeysHold(db: Db) {
    && db.details.vectors <= db.details.chunks
    && (forall p | p in db.details.chunks :: p.revision in db.models)
  }

  ghost predicate WellKept(db: Db) {
    RowsAgree(db) && FingerprintsUnique(db) && Acyclic(Links(db)) && ActiveIsHighest(db) && KeysHold(db)
  }

  /** What never changes back: `earlier` was read before `later`. */
  ghost predicate Precedes(earlier: Db, later: Db) {
    && (forall m | m in earlier.memory :: m in later.memory && RowPrecedes(earlier.memory[m], later.memory[m]))
    && (forall r | r in earlier.models :: r in later.models && later.models[r].identity == earlier.models[r].identity
                                          && later.models[r].firstSeen == earlier.models[r].firstSeen)
    && earlier.counters.Keys <= later.counters.Keys
    && (forall c | c in earlier.claims.history ::
          c in later.claims.history && (earlier.claims.history[c].erased ==> later.claims.history[c].erased))
  }

  ghost predicate RowPrecedes(earlier: MemoryRow, later: MemoryRow) {
    && later.kind == earlier.kind && later.created == earlier.created
    && (earlier.state == Erased ==> later.state == Erased)
    && (earlier.state != Quarantined ==> later.state != Quarantined)
    && (earlier.originErased ==> later.originErased)
  }

  lemma {:induction false} PrecedesTransitive(a: Db, b: Db, c: Db)
    requires Precedes(a, b) && Precedes(b, c)
    ensures Precedes(a, c)
  {
    forall m | m in a.memory ensures m in c.memory && RowPrecedes(a.memory[m], c.memory[m]) {
      assert RowPrecedes(a.memory[m], b.memory[m]);
      assert RowPrecedes(b.memory[m], c.memory[m]);
    }
  }

  /** What a staged statement must say of the rows it names, given a row read earlier. */
  ghost predicate Sound(db: Db, st: Statement) {
    st.OnRows? ==> SoundRow(db, st.row)
  }

  ghost predicate SoundRow(db: Db, st: RowStatement) {
    match st
    case InsertMemory(id, row) =>
      RowAgrees(row) && row.state in {Active, Quarantined} && !row.originErased
    case Merge(id, expected, merged) =>
      id in db.memory && merged.kind == expected.kind && merged.state == expected.state
      && merged.successor == expected.successor && merged.created == expected.created
    case Supersede(id, heir, expected, replaced) =>
      id in db.memory && replaced.kind == expected.kind && replaced.state == Superseded
      && replaced.successor == Some(heir) && replaced.created == expected.created
    case Tombstone(id, now, blank) =>
      id in db.memory && blank.kind == db.memory[id].kind && blank.created == db.memory[id].created
      && blank.state == Erased && blank.successor == None && blank.content == BLANK && blank.uses == 0
      && blank.lastUsed == blank.created && blank.updated == now
    case _ => true
  }

  lemma {:induction false} SoundLater(a: Db, b: Db, st: Statement)
    requires Sound(a, st) && Precedes(a, b)
    ensures Sound(b, st)
  {
  }

  lemma {:induction false} RowsMoveOn(db: Db, st: RowStatement)
    requires RowsAgree(db) && SoundRow(db, st) && WriteRow(db, st).Wrote?
    ensures forall m | m in db.memory ::
      (m in WriteRow(db, st).table && RowPrecedes(db.memory[m], WriteRow(db, st).table[m]))
  {
  }

  lemma {:induction false} RowsStayInStep(db: Db, st: RowStatement)
    requires RowsAgree(db) && SoundRow(db, st) && WriteRow(db, st).Wrote?
    ensures RowsAgree(db.(memory := WriteRow(db, st).table))
    ensures forall m | m in db.memory ::
      (m in WriteRow(db, st).table && RowPrecedes(db.memory[m], WriteRow(db, st).table[m]))
  {
    RowsMoveOn(db, st);
  }

  lemma {:induction false} RowsStayUnique(db: Db, st: RowStatement)
    requires RowsAgree(db) && FingerprintsUnique(db) && SoundRow(db, st) && WriteRow(db, st).Wrote?
    ensures FingerprintsUnique(db.(memory := WriteRow(db, st).table))
  {
  }

  /** Staged against whatever state, a supersession commits only where it closes no cycle. */
  lemma {:induction false} RowsStayAcyclic(db: Db, st: RowStatement)
    requires RowsAgree(db) && Acyclic(Links(db)) && SoundRow(db, st) && WriteRow(db, st).Wrote?
    ensures Acyclic(Links(db.(memory := WriteRow(db, st).table)))
  {
    var after := db.(memory := WriteRow(db, st).table);
    if st.Supersede? {
      LinkKeepsAcyclic(Links(db), st.id, st.heir);
      assert Links(after) == Links(db)[st.id := st.heir];
    } else {
      UnlinkKeepsAcyclic(Links(db), Links(after));
    }
  }

  lemma {:induction false} RegistryStaysHighest(db: Db, st: RegistryStatement)
    requires ActiveIsHighest(db) && WriteRegistry(db.models, st).Wrote?
    ensures ActiveIsHighest(db.(models := WriteRegistry(db.models, st).table))
    ensures forall r | r in db.models :: (r in WriteRegistry(db.models, st).table
      && WriteRegistry(db.models, st).table[r].identity == db.models[r].identity
      && WriteRegistry(db.models, st).table[r].firstSeen == db.models[r].firstSeen)
  {
  }

  lemma {:induction false} DetailsKeepKeys(db: Db, st: DetailStatement)
    requires KeysHold(db) && WriteDetail(db, st).Wrote?
    ensures KeysHold(db.(details := WriteDetail(db, st).table))
  {
  }

  lemma {:induction false} ClaimsStayErased(t: ClaimTables, st: ClaimStatement)
    requires WriteClaim(t, st).Wrote?
    ensures forall c | c in t.history ::
      (c in WriteClaim(t, st).table.history && (t.history[c].erased ==> WriteClaim(t, st).table.history[c].erased))
  {
  }

  /** Every statement that runs keeps the tables well kept and moves only forward. */
  lemma {:induction false} ExecKeeps(db: Db, st: Statement)
    requires WellKept(db) && Sound(db, st) && Exec(db, st).Ran?
    ensures WellKept(Exec(db, st).db) && Precedes(db, Exec(db, st).db)
  {
    var after := Exec(db, st).db;
    assert !st.OnRegistry? ==> forall r: Revision :: IsActive(after, r) == IsActive(db, r);
    match st
    case Guard(_) =>
    case OnRows(row) =>
      RowsStayInStep(db, row);
      RowsStayUnique(db, row);
      RowsStayAcyclic(db, row);
    case OnCounters(counter) =>
      assert Links(after) == Links(db);
      assert db.counters.Keys <= WriteCounter(db, counter).table.Keys;
    case OnRegistry(registry) =>
      assert Links(after) == Links(db);
      RegistryStaysHighest(db, registry);
    case OnDetails(detail) =>
      assert Links(after) == Links(db);
      DetailsKeepKeys(db, detail);
    case OnClaims(claim) =>
      assert Links(after) == Links(db);
      ClaimsStayErased(db.claims, claim);
  }

  ghost predicate AllSound(db: Db, sts: seq<Statement>) {
    forall i | 0 <= i < |sts| :: Sound(db, sts[i])
  }

  lemma {:induction false} AllKeep(db: Db, sts: seq<Statement>)
    requires WellKept(db) && AllSound(db, sts) && ExecAll(db, sts).Ran?
    ensures WellKept(ExecAll(db, sts).db) && Precedes(db, ExecAll(db, sts).db)
    decreases |sts|
  {
    if sts != [] {
      var next := Exec(db, sts[0]).db;
      ExecKeeps(db, sts[0]);
      forall i | 0 <= i < |sts[1..]| ensures Sound(next, sts[1..][i]) {
        SoundLater(db, next, sts[i + 1]);
      }
      AllKeep(next, sts[1..]);
      PrecedesTransitive(db, next, ExecAll(db, sts).db);
    }
  }

  lemma {:induction false} ExecAllAppend(db: Db, a: seq<Statement>, b: seq<Statement>)
    ensures ExecAll(db, a).Abort? ==> ExecAll(db, a + b).Abort?
    ensures ExecAll(db, a).Ran? ==> ExecAll(db, a + b) == ExecAll(ExecAll(db, a).db, b)
    decreases |a|
  {
    if a == [] {
      assert a + b == b;
    } else {
      assert (a + b)[1..] == a[1..] + b;
      if Exec(db, a[0]).Ran? {
        ExecAllAppend(Exec(db, a[0]).db, a[1..], b);
      }
    }
  }
}
