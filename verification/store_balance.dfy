/** Each operation moves the counters exactly as it moves the rows. */
module StoreBalance {

  import opened Wrappers
  import opened Succession
  import opened StoreTables
  import opened StoreInvariants
  import opened StoreStaging
  import opened StoreWorld
  import opened StoreResidue
  import opened StoreCounters
  import opened StoreOperations
  import opened StoreErasing

  /** Balanced before, balanced after, and no clamp anywhere between. */
  ghost predicate KeepsBalance(db: Db, sts: seq<Statement>) {
    Balanced(db) && ExecAll(db, sts).Ran? ==> NeverClamps(db, sts) && Balanced(ExecAll(db, sts).db)
  }

  lemma {:induction false} LevelKeepsBalance(db: Db, sts: seq<Statement>)
    requires AllLevel(sts)
    ensures KeepsBalance(db, sts)
  {
    LevelAll(db, sts);
    if Balanced(db) && ExecAll(db, sts).Ran? {
      var end := ExecAll(db, sts).db;
      forall b: Bucket ensures Count(end, b) == |RowsIn(end.memory, b)| {
        assert Count(db, b) == |RowsIn(db.memory, b)|;
      }
    }
  }

  lemma {:induction false} DerivationsLevel(child: MemoryId, parents: seq<MemoryId>)
    ensures AllLevel(Derivations(child, parents))
    decreases |parents|
  {
    if parents != [] {
      DerivationsLevel(child, parents[1..]);
    }
  }

  lemma {:induction false} OwingThroughLevel(db: Db, sts: seq<Statement>, out: Option<Bucket>, into: Option<Bucket>)
    requires AllLevel(sts) && ExecAll(db, sts).Ran? && Owing(db, out, into)
    ensures Owing(ExecAll(db, sts).db, out, into) && NeverClamps(db, sts)
  {
    LevelAll(db, sts);
    var end := ExecAll(db, sts).db;
    forall b: Bucket ensures Count(end, b) == |RowsIn(end.memory, b)| + One(out, b) - One(into, b) {
      assert Count(db, b) == |RowsIn(db.memory, b)| + One(out, b) - One(into, b);
    }
  }

  lemma {:induction false} OwingNothing(db: Db)
    ensures Balanced(db) <==> Owing(db, None, None)
  {
    if Owing(db, None, None) {
      forall b: Bucket ensures Count(db, b) == |RowsIn(db.memory, b)| {
        assert Count(db, b) == |RowsIn(db.memory, b)| + One(None, b) - One(None, b);
      }
    }
  }

  /** An insert lists its row, rows beside it, one unit for the counter, and more beside it. */
  lemma {:induction false} InsertShape(observed: Db, c: Candidate, key: Option<KeyId>)
    returns (front: seq<Statement>, back: seq<Statement>)
    ensures InsertStatements(observed, c, key)
         == [OnRows(InsertMemory(c.id, RowOf(c)))] + (front + ([OnCounters(Adjust(Bucket(c.kind, StateOf(c)), 1))] + back))
    ensures AllLevel(front) && AllLevel(back)
  {
    front := [OnDetails(InsertProvenance(c.id))] + Derivations(c.id, c.content.parents);
    back := EmbeddingStatements(observed, c.id) + [OnDetails(AppendSource(c.id))] + KeyStatements(key, Some(c.id));
    DerivationsLevel(c.id, c.content.parents);
  }

  lemma {:induction false} ArrivalOwes(db: Db, id: MemoryId, row: MemoryRow)
    requires Balanced(db) && Exec(db, OnRows(InsertMemory(id, row))).Ran?
    ensures Owing(Exec(db, OnRows(InsertMemory(id, row))).db, None, Some(BucketOf(row)))
  {
    var end := Exec(db, OnRows(InsertMemory(id, row))).db;
    forall b: Bucket ensures Count(end, b) == |RowsIn(end.memory, b)| + One(None, b) - One(Some(BucketOf(row)), b) {
      BucketMove(db.memory, id, row, b);
      assert Count(db, b) == |RowsIn(db.memory, b)|;
    }
  }

  lemma {:induction false} InsertBalances(observed: Db, db: Db, c: Candidate, key: Option<KeyId>)
    ensures KeepsBalance(db, InsertStatements(observed, c, key))
  {
    var sts := InsertStatements(observed, c, key);
    if Balanced(db) && ExecAll(db, sts).Ran? {
      var first, unit := OnRows(InsertMemory(c.id, RowOf(c))), OnCounters(Adjust(Bucket(c.kind, StateOf(c)), 1));
      var front, back := InsertShape(observed, c, key);
      HeadFirst(db, first, front + ([unit] + back));
      ArrivalOwes(db, c.id, RowOf(c));
      SettlesAfter(Exec(db, first).db, front, Bucket(c.kind, StateOf(c)), back);
      assert ([first] + (front + ([unit] + back)))[1..] == front + ([unit] + back);
    }
  }

  lemma {:induction false} SettlesAfter(db: Db, front: seq<Statement>, b: Bucket, back: seq<Statement>)
    requires AllLevel(front) && AllLevel(back) && Owing(db, None, Some(b))
    requires ExecAll(db, front + ([OnCounters(Adjust(b, 1))] + back)).Ran?
    ensures NeverClamps(db, front + ([OnCounters(Adjust(b, 1))] + back))
    ensures Balanced(ExecAll(db, front + ([OnCounters(Adjust(b, 1))] + back)).db)
  {
    var unit := OnCounters(Adjust(b, 1));
    ExecAllAppend(db, front, [unit] + back);
    OwingThroughLevel(db, front, None, Some(b));
    var mid := ExecAll(db, front).db;
    AdjustSettles(mid, None, Some(b), b);
    HeadFirst(mid, unit, back);
    var late := Exec(mid, unit).db;
    OwingThroughLevel(late, back, None, None);
    OwingNothing(ExecAll(late, back).db);
    assert ([unit] + back)[1..] == back;
    NeverClampsAppend(db, front, [unit] + back);
  }

  lemma {:induction false} MergeBalances(observed: Db, db: Db, id: MemoryId, expected: Record, c: Candidate, key: Option<KeyId>)
    ensures KeepsBalance(db, MergeStatements(observed, id, expected, c, key))
  {
    LevelKeepsBalance(db, MergeStatements(observed, id, expected, c, key));
  }

  /** A supersession moves one unit between the bucket the row is in when it commits and
      its new one: the record comparison ties the bucket read to the bucket found. */
  lemma {:induction false} SupersedeBalances(walked: map<MemoryId, MemoryId>, rowRead: Db, db: Db, prior: MemoryId, heir: MemoryId, at: nat)
    requires RowsAgree(db) && Precedes(rowRead, db) && SupersedeStatements(walked, rowRead, prior, heir, at).Some?
    ensures KeepsBalance(db, SupersedeStatements(walked, rowRead, prior, heir, at).value)
  {
    var sts := SupersedeStatements(walked, rowRead, prior, heir, at).value;
    if Balanced(db) && ExecAll(db, sts).Ran? {
      var expected := rowRead.memory[prior].record;
      var replaced := expected.(state := Superseded, successor := Some(heir), updated := at);
      var move := OnRows(Supersede(prior, heir, expected, replaced));
      var from, to := Bucket(expected.kind, expected.state), Bucket(expected.kind, Superseded);
      var down, up := OnCounters(Adjust(from, -1)), OnCounters(Adjust(to, 1));
      assert sts == [move] + ([down] + [up]);
      HeadFirst(db, move, [down] + [up]);
      SupersessionOwes(db, prior, heir, expected, replaced);
      TwoUnits(Exec(db, move).db, from, to);
      assert ([move] + ([down] + [up]))[1..] == [down] + [up];
    }
  }

  lemma {:induction false} SupersessionOwes(db: Db, prior: MemoryId, heir: MemoryId, expected: Record, replaced: Record)
    requires Balanced(db) && RowsAgree(db) && prior in db.memory
    requires Exec(db, OnRows(Supersede(prior, heir, expected, replaced))).Ran?
    ensures var end := Exec(db, OnRows(Supersede(prior, heir, expected, replaced))).db;
            Owing(end, Some(Bucket(expected.kind, expected.state)), Some(Bucket(expected.kind, Superseded)))
            && prior in RowsIn(end.memory, Bucket(expected.kind, Superseded))
  {
    var end := Exec(db, OnRows(Supersede(prior, heir, expected, replaced))).db;
    var from, to := Bucket(expected.kind, expected.state), Bucket(expected.kind, Superseded);
    assert RowAgrees(db.memory[prior]) && BucketOf(db.memory[prior]) == from;
    forall b: Bucket ensures Count(end, b) == |RowsIn(end.memory, b)| + One(Some(from), b) - One(Some(to), b) {
      BucketMove(db.memory, prior, end.memory[prior], b);
      assert end.memory == db.memory[prior := end.memory[prior]];
      assert Count(db, b) == |RowsIn(db.memory, b)|;
    }
  }

  lemma {:induction false} TwoUnits(db: Db, from: Bucket, to: Bucket)
    requires Owing(db, Some(from), Some(to)) && RowsIn(db.memory, to) != {}
    ensures var sts := [OnCounters(Adjust(from, -1))] + [OnCounters(Adjust(to, 1))];
            NeverClamps(db, sts) && ExecAll(db, sts).Ran? && Balanced(ExecAll(db, sts).db)
  {
    var down, up := OnCounters(Adjust(from, -1)), OnCounters(Adjust(to, 1));
    AdjustSettles(db, Some(from), Some(to), from);
    var mid := Exec(db, down).db;
    AdjustSettles(mid, None, Some(to), to);
    var end := Exec(mid, up).db;
    OwingNothing(end);
    assert ([down] + [up])[1..] == [up] && [up][1..] == [];
    assert ExecAll(mid, [up]) == ExecAll(end, []);
    assert NeverClamps(mid, [up]);
  }

  // ---------------------------------------------------------------- erasure

  /** Statements with no `max(0, ..)` in them. */
  predicate Unclamped(st: Statement) {
    st.OnCounters? ==> st.counter.DecrementLive? || st.counter.IncrementErased?
  }

  lemma {:induction false} UnclampedNeverClamps(db: Db, sts: seq<Statement>)
    requires forall i | 0 <= i < |sts| :: Unclamped(sts[i])
    ensures NeverClamps(db, sts)
    decreases |sts|
  {
    if sts != [] {
      assert Unclamped(sts[0]);
      assert forall i | 0 <= i < |sts[1..]| :: sts[1..][i] == sts[i + 1];
      if Exec(db, sts[0]).Ran? {
        UnclampedNeverClamps(Exec(db, sts[0]).db, sts[1..]);
      }
    }
  }

  lemma {:induction false} MemberUnclamped(p: Plan, st: Statement)
    requires Proper(p)
    requires st in p.head || st in p.keys || st in MoveStatements(p.shells)
             || st in TombstoneStatements(p.shells, p.now) || st in QueueStatements(p.shells) || st in p.tail
    ensures Unclamped(st)
  {
    SweepMembers(TABLES, p.shells);
    DestroyMembers(p.shells);
    MoveMembers(p.shells);
    QueueMembers(p.shells);
    TombstoneMembers(p.shells, p.now);
  }

  lemma {:induction false} BatchKeepsBalance(db: Db, p: Plan)
    requires Proper(p) && Distinct(p.shells)
    ensures KeepsBalance(db, Built(p).statements)
  {
    var sts := Built(p).statements;
    forall i | 0 <= i < |sts| ensures Unclamped(sts[i]) {
      BatchMember(p, i);
      MemberUnclamped(p, sts[i]);
    }
    UnclampedNeverClamps(db, sts);
    if Balanced(db) && ExecAll(db, sts).Ran? {
      BatchBalances(db, Built(p), p.head, p.keys, p.shells, p.now, p.tail, p.marks);
    }
  }

  lemma {:induction false} DistinctPrepends(shell: Shell, rest: seq<Shell>)
    requires Distinct(rest) && !Names(rest, shell.id)
    ensures Distinct([shell] + rest)
  {
    var shells := [shell] + rest;
    forall i, j | 0 <= i < j < |shells| ensures shells[i].id != shells[j].id {
      assert shells[j] == rest[j - 1];
      if i > 0 {
        assert shells[i] == rest[i - 1];
      }
    }
  }

  /** Cascading erasure, read and committed on one state: the counters stay in agreement
      if and only if the memory is not recorded as derived from itself. */
  lemma {:induction false} CascadeBalancesIff(db: Db, target: MemoryId, ids: seq<MemoryId>, now: nat)
    requires Balanced(db) && Present(db, target) && Lists(ids, DerivedOf(db, target))
    requires ExecAll(db, EraseBatch(target, ErasureShells(db, target, seq(|ids|, i => db), ids), true, now).statements).Ran?
    ensures Balanced(ExecAll(db, EraseBatch(target, ErasureShells(db, target, seq(|ids|, i => db), ids), true, now).statements).db)
       <==> Parentage(target, target) !in db.details.derivation
  {
    var moments := seq(|ids|, i => db);
    var rest := ShellsAt(moments, ids);
    var shells := ErasureShells(db, target, moments, ids);
    var p := ErasePlan(target, shells, true, now);
    PlansProper(target, shells, true, now);
    ShellsAtNames(moments, ids);
    assert shells[1..] == rest;
    assert target in DerivedOf(db, target) <==> Parentage(target, target) in db.details.derivation;
    if target in DerivedOf(db, target) {
      var i :| 0 <= i < |ids| && ids[i] == target;
      assert ListedAlive(moments, ids, i);
      RepeatedShellUnbalances(db, Built(p), p.head, p.keys, p.shells, p.now, p.tail, p.marks);
    } else {
      DistinctPrepends(ShellOf(db, target), rest);
      BatchKeepsBalance(db, p);
    }
  }
}
