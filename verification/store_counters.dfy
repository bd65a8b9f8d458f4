/** `scope_counter` counts the rows of `memory`, whoever else is writing. */
module StoreCounters {

  import opened Wrappers
  import opened Succession
  import opened StoreTables
  import opened StoreInvariants
  import opened StoreStaging
  import opened StoreWorld
  import opened StoreResidue

  ghost function RowsIn(memory: map<MemoryId, MemoryRow>, bucket: Bucket): set<MemoryId> {
    set m | m in memory && BucketOf(memory[m]) == bucket
  }

  /** Every counter is the number of rows with its kind and status. */
  ghost predicate Balanced(db: Db) {
    forall b: Bucket :: Count(db, b) == |RowsIn(db.memory, b)|
  }

  function One(which: Option<Bucket>, b: Bucket): int {
    if which == Some(b) then 1 else 0
  }

  /** Inside a transaction: a row has left `out` and entered `into`, and the counters do not know yet. */
  ghost predicate Owing(db: Db, out: Option<Bucket>, into: Option<Bucket>) {
    forall b: Bucket :: Count(db, b) == |RowsIn(db.memory, b)| + One(out, b) - One(into, b)
  }

  /** The `max(0, ..)` of a counter statement would change its answer. */
  ghost predicate Clamps(db: Db, st: Statement) {
    st.OnCounters? &&
      match st.counter
      case Adjust(bucket, delta) => bucket in db.counters && db.counters[bucket] + delta < 0
      case CountOutOfActive(kind, ids) =>
        Bucket(kind, Active) in db.counters && db.counters[Bucket(kind, Active)] < |Claimed(db, kind, ids)|
      case _ => false
  }

  /** No counter statement of the list is ever clamped. */
  ghost predicate NeverClamps(db: Db, sts: seq<Statement>)
    decreases |sts|
  {
    sts != [] ==> !Clamps(db, sts[0]) && (Exec(db, sts[0]).Ran? ==> NeverClamps(Exec(db, sts[0]).db, sts[1..]))
  }

  /** Statements that move no row between buckets and no counter. */
  predicate Level(st: Statement) {
    match st
    case OnCounters(_) => false
    case OnRows(row) => row.Merge? || row.SetValidUntil? || row.Redigest? || row.MarkDerived?
    case _ => true
  }

  lemma {:induction false} LevelRows(db: Db, r: RowStatement)
    requires WriteRow(db, r).Wrote? && (r.Merge? || r.SetValidUntil? || r.Redigest? || r.MarkDerived?)
    ensures WriteRow(db, r).table.Keys == db.memory.Keys
    ensures forall m | m in db.memory :: BucketOf(WriteRow(db, r).table[m]) == BucketOf(db.memory[m])
  {
  }

  lemma {:induction false} LevelStep(db: Db, st: Statement)
    requires Level(st) && Exec(db, st).Ran?
    ensures !Clamps(db, st)
    ensures forall b: Bucket :: RowsIn(Exec(db, st).db.memory, b) == RowsIn(db.memory, b)
    ensures forall b: Bucket :: Count(Exec(db, st).db, b) == Count(db, b)
  {
    var after := Exec(db, st).db;
    if st.OnRows? {
      LevelRows(db, st.row);
      forall b: Bucket ensures RowsIn(after.memory, b) == RowsIn(db.memory, b) {
      }
    }
  }

  ghost predicate AllLevel(sts: seq<Statement>) {
    forall i | 0 <= i < |sts| :: Level(sts[i])
  }

  lemma {:induction false} LevelAll(db: Db, sts: seq<Statement>)
    requires AllLevel(sts)
    ensures NeverClamps(db, sts)
    ensures ExecAll(db, sts).Ran? ==>
      (forall b: Bucket :: RowsIn(ExecAll(db, sts).db.memory, b) == RowsIn(db.memory, b)
                           && Count(ExecAll(db, sts).db, b) == Count(db, b))
    decreases |sts|
  {
    if sts != [] {
      assert Level(sts[0]);
      assert !Clamps(db, sts[0]);
      if Exec(db, sts[0]).Ran? {
        LevelStep(db, sts[0]);
        assert forall i | 0 <= i < |sts[1..]| :: sts[1..][i] == sts[i + 1];
        LevelAll(Exec(db, sts[0]).db, sts[1..]);
      }
    }
  }

  lemma {:induction false} NeverClampsAppend(db: Db, a: seq<Statement>, b: seq<Statement>)
    requires NeverClamps(db, a)
    requires ExecAll(db, a).Ran? ==> NeverClamps(ExecAll(db, a).db, b)
    ensures NeverClamps(db, a + b)
    decreases |a|
  {
    if a == [] {
      assert a + b == b;
    } else {
      assert (a + b)[1..] == a[1..] + b;
      if Exec(db, a[0]).Ran? {
        NeverClampsAppend(Exec(db, a[0]).db, a[1..], b);
      }
    }
  }

  /** The upsert of one unit that a transaction owes. */
  lemma {:induction false} AdjustSettles(db: Db, out: Option<Bucket>, into: Option<Bucket>, b: Bucket)
    requires Owing(db, out, into)
    ensures into == Some(b) && out == None ==>
      Owing(Exec(db, OnCounters(Adjust(b, 1))).db, None, None) && !Clamps(db, OnCounters(Adjust(b, 1)))
    ensures out == Some(b) && (into == Some(b) ==> RowsIn(db.memory, b) != {}) ==>
      Owing(Exec(db, OnCounters(Adjust(b, -1))).db, None, into) && !Clamps(db, OnCounters(Adjust(b, -1)))
  {
    assert Count(db, b) == |RowsIn(db.memory, b)| + One(out, b) - One(into, b);
  }

  lemma {:induction false} BucketMove(memory: map<MemoryId, MemoryRow>, id: MemoryId, row: MemoryRow, b: Bucket)
    ensures |RowsIn(memory[id := row], b)|
         == |RowsIn(memory, b)| + One(Some(BucketOf(row)), b) - (if id in memory then One(Some(BucketOf(memory[id])), b) else 0)
  {
    var before, after := RowsIn(memory, b), RowsIn(memory[id := row], b);
    var rest := before - {id};
    assert after == if BucketOf(row) == b then rest + {id} else rest;
    assert before == if id in memory && BucketOf(memory[id]) == b then rest + {id} else rest;
  }

  // ---------------------------------------------------------------- erasure

  /** What moving `shells` does to one bucket, counting each shell that is still there. */
  ghost function Shift(memory: map<MemoryId, MemoryRow>, shells: seq<Shell>, b: Bucket): int
    decreases |shells|
  {
    if shells == [] then 0
    else Shift(memory, shells[1..], b) + ShiftOne(memory, shells[0].id, b)
  }

  ghost function ShiftOne(memory: map<MemoryId, MemoryRow>, id: MemoryId, b: Bucket): int {
    if id !in memory || memory[id].state == Erased then 0
    else One(Some(Bucket(memory[id].kind, Erased)), b) - One(Some(BucketOf(memory[id])), b)
  }

  lemma {:induction false} MovePair(db: Db, id: MemoryId)
    ensures var first := Exec(db, OnCounters(DecrementLive(id)));
            first.Ran? && Exec(first.db, OnCounters(IncrementErased(id))).Ran?
            && var end := Exec(first.db, OnCounters(IncrementErased(id))).db;
               end == db.(counters := end.counters)
               && forall b: Bucket :: Count(end, b) == Count(db, b) + ShiftOne(db.memory, id, b)
  {
  }

  lemma {:induction false} MovesRun(db: Db, shells: seq<Shell>)
    ensures ExecAll(db, MoveStatements(shells)).Ran?
    ensures ExecAll(db, MoveStatements(shells)).db == db.(counters := ExecAll(db, MoveStatements(shells)).db.counters)
    ensures forall b: Bucket :: Count(ExecAll(db, MoveStatements(shells)).db, b) == Count(db, b) + Shift(db.memory, shells, b)
    decreases |shells|
  {
    if shells != [] {
      var id := shells[0].id;
      var pair := [OnCounters(DecrementLive(id)), OnCounters(IncrementErased(id))];
      MovePair(db, id);
      var first := Exec(db, pair[0]).db;
      assert pair[1..] == [pair[1]] && pair[1..][1..] == [];
      assert ExecAll(first, pair[1..]) == ExecAll(Exec(first, pair[1]).db, []);
      ExecAllAppend(db, pair, MoveStatements(shells[1..]));
      MovesRun(ExecAll(db, pair).db, shells[1..]);
    }
  }

  ghost function Buried(memory: map<MemoryId, MemoryRow>, shells: seq<Shell>, now: nat): map<MemoryId, MemoryRow>
    decreases |shells|
  {
    if shells == [] then memory else Buried(BuriedOne(memory, shells[0], now), shells[1..], now)
  }

  ghost function BuriedOne(memory: map<MemoryId, MemoryRow>, shell: Shell, now: nat): map<MemoryId, MemoryRow> {
    if shell.id !in memory || memory[shell.id].state == Erased then memory
    else memory[shell.id := memory[shell.id].(
      state := Erased, supersededBy := None, fingerprint := Blanked, bodyBytes := 0,
      validUntil := None, updated := now, record := BlankRecord(shell, now))]
  }

  lemma {:induction false} TombstonesRun(db: Db, shells: seq<Shell>, now: nat)
    ensures ExecAll(db, TombstoneStatements(shells, now)).Ran?
    ensures ExecAll(db, TombstoneStatements(shells, now)).db == db.(memory := Buried(db.memory, shells, now))
    decreases |shells|
  {
    if shells != [] {
      var st := OnRows(Tombstone(shells[0].id, now, BlankRecord(shells[0], now)));
      assert Exec(db, st).Ran? && Exec(db, st).db == db.(memory := BuriedOne(db.memory, shells[0], now));
      TombstonesRun(Exec(db, st).db, shells[1..], now);
      assert TombstoneStatements(shells, now)[1..] == TombstoneStatements(shells[1..], now);
    }
  }

  lemma {:induction false} BuriedStates(memory: map<MemoryId, MemoryRow>, shells: seq<Shell>, now: nat)
    ensures Buried(memory, shells, now).Keys == memory.Keys
    ensures forall m | m in memory ::
      (Buried(memory, shells, now)[m].kind == memory[m].kind
       && Buried(memory, shells, now)[m].state == if Names(shells, m) then Erased else memory[m].state)
    decreases |shells|
  {
    if shells != [] {
      var next := BuriedOne(memory, shells[0], now);
      BuriedStates(next, shells[1..], now);
      forall m | m in memory ensures Names(shells, m) <==> shells[0].id == m || Names(shells[1..], m) {
        SameNames(shells, m);
      }
    }
  }

  ghost predicate Distinct(shells: seq<Shell>) {
    forall i, j | 0 <= i < j < |shells| :: shells[i].id != shells[j].id
  }

  lemma {:induction false} ShiftElsewhere(memory: map<MemoryId, MemoryRow>, other: map<MemoryId, MemoryRow>, shells: seq<Shell>, b: Bucket)
    requires forall i | 0 <= i < |shells| ::
      ((shells[i].id in memory <==> shells[i].id in other)
       && (shells[i].id in memory ==> memory[shells[i].id] == other[shells[i].id]))
    ensures Shift(memory, shells, b) == Shift(other, shells, b)
    decreases |shells|
  {
    if shells != [] {
      forall i | 0 <= i < |shells[1..]| ensures shells[1..][i] == shells[i + 1] {
      }
      ShiftElsewhere(memory, other, shells[1..], b);
    }
  }

  /** With each shell named once, the rows move exactly as the counters did. */
  lemma {:induction false} BurialShifts(memory: map<MemoryId, MemoryRow>, shells: seq<Shell>, now: nat, b: Bucket)
    requires Distinct(shells)
    ensures |RowsIn(Buried(memory, shells, now), b)| == |RowsIn(memory, b)| + Shift(memory, shells, b)
    decreases |shells|
  {
    if shells != [] {
      var next := BuriedOne(memory, shells[0], now);
      forall i | 0 <= i < |shells[1..]| ensures shells[1..][i] == shells[i + 1] && shells[i + 1].id != shells[0].id {
      }
      BurialShifts(next, shells[1..], now, b);
      ShiftElsewhere(memory, next, shells[1..], b);
      if next != memory {
        BucketMove(memory, shells[0].id, next[shells[0].id], b);
      }
    }
  }

  lemma {:induction false} SegmentsRun(db: Db, front: seq<Statement>, shells: seq<Shell>, now: nat, back: seq<Statement>)
    requires AllUntouching(front) && AllLevel(back)
    requires ExecAll(db, front + (MoveStatements(shells) + (TombstoneStatements(shells, now) + back))).Ran?
    ensures var end := ExecAll(db, front + (MoveStatements(shells) + (TombstoneStatements(shells, now) + back))).db;
            && (forall b: Bucket :: Count(end, b) == Count(db, b) + Shift(db.memory, shells, b))
            && (forall b: Bucket :: RowsIn(end.memory, b) == RowsIn(Buried(db.memory, shells, now), b))
  {
    var moves, tombs := MoveStatements(shells), TombstoneStatements(shells, now);
    ExecAllAppend(db, front, moves + (tombs + back));
    UntouchingAll(db, front);
    var a := ExecAll(db, front).db;
    ExecAllAppend(a, moves, tombs + back);
    MovesRun(a, shells);
    var c := ExecAll(a, moves).db;
    ExecAllAppend(c, tombs, back);
    TombstonesRun(c, shells, now);
    LevelAll(ExecAll(c, tombs).db, back);
  }

  lemma {:induction false} Regrouped(a: seq<Statement>, b: seq<Statement>, c: seq<Statement>, d: seq<Statement>,
                                     e: seq<Statement>, f: seq<Statement>)
    ensures a + b + c + d + e + f == (a + b) + (c + (d + (e + f)))
  {
  }

  /** The counters and rows a destructive batch leaves. */
  lemma {:induction false} BatchCounters(db: Db, batch: Batch, head: seq<Statement>, keys: seq<Statement>, shells: seq<Shell>, now: nat,
                      tail: seq<Statement>, marks: bool)
    requires Destructive(batch, head, keys, shells, now, tail, marks) && ExecAll(db, batch.statements).Ran?
    ensures var end := ExecAll(db, batch.statements).db;
            && (forall b: Bucket :: Count(end, b) == Count(db, b) + Shift(db.memory, shells, b))
            && (forall b: Bucket :: RowsIn(end.memory, b) == RowsIn(Buried(db.memory, shells, now), b))
  {
    var front, back := head + keys, QueueStatements(shells) + tail;
    Regrouped(head, keys, MoveStatements(shells), TombstoneStatements(shells, now), QueueStatements(shells), tail);
    FrontUntouching(head, keys, shells);
    BackLevel(shells, tail);
    SegmentsRun(db, front, shells, now, back);
  }

  lemma {:induction false} FrontUntouching(head: seq<Statement>, keys: seq<Statement>, shells: seq<Shell>)
    requires head == SweepStatements(TABLES, shells)
    requires keys == DestroyStatements(shells) || keys == [OnDetails(DestroyKeys)]
    ensures AllUntouching(head + keys)
  {
    SweepMembers(TABLES, shells);
    DestroyMembers(shells);
    var front := head + keys;
    forall i | 0 <= i < |front| ensures Untouching(front[i]) {
      assert front[i] in head || front[i] in keys;
    }
  }

  lemma {:induction false} BackLevel(shells: seq<Shell>, tail: seq<Statement>)
    requires forall st | st in tail :: Shrinks(st) && Gentle(st) && Attaches(st) == None && !st.OnDetails? && !st.OnCounters?
    ensures AllLevel(QueueStatements(shells) + tail)
  {
    QueueMembers(shells);
    var back := QueueStatements(shells) + tail;
    forall i | 0 <= i < |back| ensures Level(back[i]) {
      assert back[i] in QueueStatements(shells) || back[i] in tail;
    }
  }

  /** Statements on the rows beside a memory leave rows and counters as they are. */
  predicate Untouching(st: Statement) {
    st.OnDetails? || st.OnClaims? || st.Guard?
  }

  ghost predicate AllUntouching(sts: seq<Statement>) {
    forall i | 0 <= i < |sts| :: Untouching(sts[i])
  }

  lemma {:induction false} UntouchingAll(db: Db, sts: seq<Statement>)
    requires AllUntouching(sts) && ExecAll(db, sts).Ran?
    ensures ExecAll(db, sts).db.memory == db.memory && ExecAll(db, sts).db.counters == db.counters
    ensures ExecAll(db, sts).db.models == db.models
    decreases |sts|
  {
    if sts != [] {
      assert Untouching(sts[0]);
      var next := Exec(db, sts[0]).db;
      assert next.memory == db.memory && next.counters == db.counters && next.models == db.models;
      forall i | 0 <= i < |sts[1..]| ensures Untouching(sts[1..][i]) {
        assert sts[1..][i] == sts[i + 1];
      }
      UntouchingAll(next, sts[1..]);
    }
  }

  /** An erasure whose shells name each memory once keeps the counters in agreement,
      however stale the shells. */
  lemma {:induction false} BatchBalances(db: Db, batch: Batch, head: seq<Statement>, keys: seq<Statement>, shells: seq<Shell>, now: nat,
                      tail: seq<Statement>, marks: bool)
    requires Destructive(batch, head, keys, shells, now, tail, marks) && ExecAll(db, batch.statements).Ran?
    requires Balanced(db) && Distinct(shells)
    ensures Balanced(ExecAll(db, batch.statements).db)
  {
    BatchCounters(db, batch, head, keys, shells, now, tail, marks);
    var end := ExecAll(db, batch.statements).db;
    forall b: Bucket ensures Count(end, b) == |RowsIn(end.memory, b)| {
      BurialShifts(db.memory, shells, now, b);
      assert Count(db, b) == |RowsIn(db.memory, b)|;
    }
  }

  lemma {:induction false} SameNames(shells: seq<Shell>, m: MemoryId)
    requires shells != []
    ensures Names(shells, m) <==> shells[0].id == m || Names(shells[1..], m)
  {
    if Names(shells, m) && shells[0].id != m {
      var i :| 0 <= i < |shells| && shells[i].id == m;
      assert shells[1..][i - 1].id == m;
    }
    if Names(shells[1..], m) {
      var i :| 0 <= i < |shells[1..]| && shells[1..][i].id == m;
      assert shells[i + 1].id == m;
    }
  }

  /** A shell named a second time is counted a second time: agreement is lost. */
  lemma {:induction false} RepeatedShellUnbalances(db: Db, batch: Batch, head: seq<Statement>, keys: seq<Statement>, shells: seq<Shell>, now: nat,
                                tail: seq<Statement>, marks: bool)
    requires Destructive(batch, head, keys, shells, now, tail, marks) && ExecAll(db, batch.statements).Ran?
    requires Balanced(db) && shells != [] && Distinct(shells[1..]) && Names(shells[1..], shells[0].id)
    requires Present(db, shells[0].id)
    ensures !Balanced(ExecAll(db, batch.statements).db)
  {
    BatchCounters(db, batch, head, keys, shells, now, tail, marks);
    var end := ExecAll(db, batch.statements).db;
    var b := Bucket(db.memory[shells[0].id].kind, Erased);
    BurialShifts(db.memory, shells[1..], now, b);
    BuriedStates(db.memory, shells, now);
    BuriedStates(db.memory, shells[1..], now);
    forall m | m in db.memory ensures Names(shells, m) <==> Names(shells[1..], m) {
      SameNames(shells, m);
    }
    assert RowsIn(Buried(db.memory, shells, now), b) == RowsIn(Buried(db.memory, shells[1..], now), b);
    assert Count(db, b) == |RowsIn(db.memory, b)|;
    assert Count(end, b) == |RowsIn(end.memory, b)| + 1;
  }

  // ----------------------------------------------------------------- expiry

  ghost predicate KindsDistinct(kinds: seq<Kind>) {
    forall i, j | 0 <= i < j < |kinds| :: kinds[i] != kinds[j]
  }

  ghost predicate Materialized(db: Db, kinds: seq<Kind>) {
    forall k | k in kinds :: Bucket(k, Expired) in db.counters && Bucket(k, Active) in db.counters
  }

  ghost function ExpiryShift(db: Db, kinds: seq<Kind>, ids: set<MemoryId>, b: Bucket): int {
    if b.kind !in kinds then 0
    else if b.state == Active then -|Claimed(db, b.kind, ids)|
    else if b.state == Expired then |Claimed(db, b.kind, ids)|
    else 0
  }

  lemma {:induction false} ClaimedFits(db: Db, kind: Kind, ids: set<MemoryId>)
    requires Count(db, Bucket(kind, Active)) >= |RowsIn(db.memory, Bucket(kind, Active))|
    ensures |Claimed(db, kind, ids)| <= Count(db, Bucket(kind, Active))
  {
    var inside, all := Claimed(db, kind, ids), RowsIn(db.memory, Bucket(kind, Active));
    assert inside <= all;
    assert |all - inside| == |all| - |inside|;
  }

  /** One kind's two counter statements. */
  lemma {:induction false} KindCountersRun(db: Db, k: Kind, ids: set<MemoryId>, next: Db)
    requires Bucket(k, Expired) in db.counters && Bucket(k, Active) in db.counters
    requires Count(db, Bucket(k, Active)) >= |RowsIn(db.memory, Bucket(k, Active))|
    requires next == Exec(Exec(db, OnCounters(CountOutOfActive(k, ids))).db, OnCounters(CountIntoExpired(k, ids))).db
    ensures Exec(db, OnCounters(CountOutOfActive(k, ids))).Ran?
    ensures Exec(Exec(db, OnCounters(CountOutOfActive(k, ids))).db, OnCounters(CountIntoExpired(k, ids))).Ran?
    ensures next == db.(counters := next.counters) && db.counters.Keys == next.counters.Keys
    ensures forall b: Bucket :: Count(next, b) == Count(db, b) + ExpiryShift(db, [k], ids, b)
    ensures NeverClamps(db, [OnCounters(CountOutOfActive(k, ids)), OnCounters(CountIntoExpired(k, ids))])
  {
    ClaimedFits(db, k, ids);
    var mid := Exec(db, OnCounters(CountOutOfActive(k, ids))).db;
    assert Claimed(mid, k, ids) == Claimed(db, k, ids);
    var pair := [OnCounters(CountOutOfActive(k, ids)), OnCounters(CountIntoExpired(k, ids))];
    assert pair[1..] == [pair[1]] && pair[1..][1..] == [];
  }

  lemma {:induction false} ExpiryCountersRun(db: Db, kinds: seq<Kind>, ids: set<MemoryId>)
    requires KindsDistinct(kinds) && Materialized(db, kinds)
    requires forall k | k in kinds :: Count(db, Bucket(k, Active)) >= |RowsIn(db.memory, Bucket(k, Active))|
    ensures var end := ExecAll(db, ExpiryCounters(kinds, ids));
            end.Ran? && end.db == db.(counters := end.db.counters)
            && (forall b: Bucket :: Count(end.db, b) == Count(db, b) + ExpiryShift(db, kinds, ids, b))
    ensures NeverClamps(db, ExpiryCounters(kinds, ids))
    decreases |kinds|
  {
    if kinds != [] {
      var k := kinds[0];
      var out, into := OnCounters(CountOutOfActive(k, ids)), OnCounters(CountIntoExpired(k, ids));
      var mid := Exec(db, out).db;
      var next := Exec(mid, into).db;
      assert k in kinds;
      KindCountersRun(db, k, ids, next);
      var rest := ExpiryCounters(kinds[1..], ids);
      var all := ExpiryCounters(kinds, ids);
      assert all[0] == out && all[1..][0] == into && all[1..][1..] == rest;
      assert [out, into][0] == out && [out, into][1..] == [into];
      OtherKinds(db, kinds, ids, next);
      ExpiryCountersRun(next, kinds[1..], ids);
      var end := ExecAll(next, rest).db;
      forall b: Bucket ensures Count(end, b) == Count(db, b) + ExpiryShift(db, kinds, ids, b) {
        assert Claimed(next, b.kind, ids) == Claimed(db, b.kind, ids);
        assert b.kind in kinds <==> b.kind == k || b.kind in kinds[1..];
      }
    }
  }

  lemma {:induction false} OtherKinds(db: Db, kinds: seq<Kind>, ids: set<MemoryId>, next: Db)
    requires kinds != [] && KindsDistinct(kinds) && Materialized(db, kinds)
    requires forall k | k in kinds :: Count(db, Bucket(k, Active)) >= |RowsIn(db.memory, Bucket(k, Active))|
    requires next == db.(counters := next.counters) && db.counters.Keys == next.counters.Keys
    requires forall b: Bucket :: Count(next, b) == Count(db, b) + ExpiryShift(db, [kinds[0]], ids, b)
    ensures kinds[0] !in kinds[1..] && KindsDistinct(kinds[1..]) && Materialized(next, kinds[1..])
    ensures forall k | k in kinds[1..] :: Count(next, Bucket(k, Active)) >= |RowsIn(next.memory, Bucket(k, Active))|
  {
    assert forall i | 0 <= i < |kinds[1..]| :: kinds[1..][i] == kinds[i + 1];
    forall k | k in kinds[1..] ensures k in kinds && k != kinds[0] {
    }
  }

  lemma {:induction false} ExpireStates(db: Db, ids: set<MemoryId>, now: nat)
    ensures var end := Exec(db, OnRows(Expire(ids, now)));
            end.Ran? && end.db == db.(memory := end.db.memory) && end.db.memory.Keys == db.memory.Keys
            && forall m | m in db.memory ::
                 BucketOf(end.db.memory[m]) == Bucket(db.memory[m].kind,
                   if m in ids && db.memory[m].state == Active then Expired else db.memory[m].state)
  {
  }

  lemma {:induction false} ExpireMoves(db: Db, end: map<MemoryId, MemoryRow>, kinds: seq<Kind>, ids: set<MemoryId>, b: Bucket)
    requires forall m | m in ids && m in db.memory :: db.memory[m].kind in kinds
    requires end.Keys == db.memory.Keys
    requires forall m | m in db.memory ::
      BucketOf(end[m]) == Bucket(db.memory[m].kind, if m in ids && db.memory[m].state == Active then Expired else db.memory[m].state)
    ensures |RowsIn(end, b)| == |RowsIn(db.memory, b)| + ExpiryShift(db, kinds, ids, b)
  {
    var moved := Claimed(db, b.kind, ids);
    if b.state == Active {
      assert RowsIn(end, b) == RowsIn(db.memory, b) - moved;
      assert moved <= RowsIn(db.memory, b);
    } else if b.state == Expired {
      assert RowsIn(end, b) == RowsIn(db.memory, b) + moved;
      assert moved !! RowsIn(db.memory, b);
    } else {
      assert RowsIn(end, b) == RowsIn(db.memory, b);
    }
    if b.kind !in kinds {
      assert moved == {};
    }
  }

  /** An expiry batch keeps the counters in agreement whatever moved since it read:
      the counter statements count the rows the update is about to change. */
  lemma {:induction false} ExpiryBalances(db: Db, kinds: seq<Kind>, ids: set<MemoryId>, now: nat)
    requires Balanced(db) && KindsDistinct(kinds) && Materialized(db, kinds)
    requires forall m | m in ids && m in db.memory :: db.memory[m].kind in kinds
    ensures NeverClamps(db, ExpiryStatements(kinds, ids, now))
    ensures ExecAll(db, ExpiryStatements(kinds, ids, now)).Ran? && Balanced(ExecAll(db, ExpiryStatements(kinds, ids, now)).db)
  {
    forall k | k in kinds ensures Count(db, Bucket(k, Active)) >= |RowsIn(db.memory, Bucket(k, Active))| {
      assert Count(db, Bucket(k, Active)) == |RowsIn(db.memory, Bucket(k, Active))|;
    }
    ExpiryCountersRun(db, kinds, ids);
    var counters, move := ExpiryCounters(kinds, ids), OnRows(Expire(ids, now));
    ExecAllAppend(db, counters, [move]);
    var mid := ExecAll(db, counters).db;
    assert [move][1..] == [];
    assert ExecAll(mid, [move]) == ExecAll(Exec(mid, move).db, []);
    assert NeverClamps(mid, [move]);
    NeverClampsAppend(db, counters, [move]);
    var end := Exec(mid, move).db;
    ExpireStates(mid, ids, now);
    forall b: Bucket ensures Count(end, b) == |RowsIn(end.memory, b)| {
      ExpireMoves(db, end.memory, kinds, ids, b);
      assert Count(db, b) == |RowsIn(db.memory, b)|;
      assert Count(mid, b) == Count(db, b) + ExpiryShift(db, kinds, ids, b);
    }
  }

  lemma {:induction false} PrepareBalances(db: Db, kinds: seq<Kind>)
    requires Balanced(db)
    ensures var end := ExecAll(db, PrepareExpiry(kinds));
            end.Ran? && Balanced(end.db) && end.db == db.(counters := end.db.counters)
            && Materialized(end.db, kinds) && db.counters.Keys <= end.db.counters.Keys
    ensures NeverClamps(db, PrepareExpiry(kinds))
    decreases |kinds|
  {
    if kinds != [] {
      var a, b := OnCounters(Adjust(Bucket(kinds[0], Expired), 0)), OnCounters(Adjust(Bucket(kinds[0], Active), 0));
      var all := PrepareExpiry(kinds);
      assert all[0] == a && all[1..][0] == b && all[1..][1..] == PrepareExpiry(kinds[1..]);
      AdjustZero(db, Bucket(kinds[0], Expired));
      var mid := Exec(db, a).db;
      AdjustZero(mid, Bucket(kinds[0], Active));
      PrepareBalances(Exec(mid, b).db, kinds[1..]);
    }
  }

  lemma {:induction false} AdjustZero(db: Db, b: Bucket)
    requires Balanced(db)
    ensures Balanced(Exec(db, OnCounters(Adjust(b, 0))).db) && !Clamps(db, OnCounters(Adjust(b, 0)))
  {
    assert Count(db, b) == |RowsIn(db.memory, b)|;
    var after := Exec(db, OnCounters(Adjust(b, 0))).db;
    forall c: Bucket ensures Count(after, c) == |RowsIn(after.memory, c)| {
      assert Count(db, c) == |RowsIn(db.memory, c)|;
    }
  }
}
