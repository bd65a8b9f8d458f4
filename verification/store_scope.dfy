/** Scope erasure, its ledger entry, and what may still follow it. */
module StoreScope {

  import opened Succession
  import opened Wrappers
  import opened StoreTables
  import opened StoreStaging
  import opened StoreWorld
  import opened StoreAccounting
  import opened StoreResidue
  import opened StoreErasing
  import opened StoreRequests
  import opened StoreReceipts
  import opened StoreRuns
  import StoreInvariants
  import StoreCounters
  import StoreOperations

  // --------------------------------------------------- the receipt of a scope

  ghost predicate ReadyNow(w: World, serial: nat) {
    WholeScope in w.audit.receipts && w.audit.receipts[WholeScope].operation == EraseScope(serial)
    && w.audit.receipts[WholeScope].ready
  }

  ghost predicate SameScopeReceipt(a: World, b: World) {
    (WholeScope in a.audit.receipts <==> WholeScope in b.audit.receipts)
    && (WholeScope in a.audit.receipts ==> a.audit.receipts[WholeScope] == b.audit.receipts[WholeScope])
  }

  lemma {:induction false} ComposedKeepsReceipt(h: seq<World>, w: World, r: Request, next: World)
    requires Composes(r) && Effect(h, w, r) == Some(next)
    ensures SameScopeReceipt(w, next)
  {
    if r.Erasure? {
      var e := r.erasure;
      EraseRuns(Running(w.db, w.audit, 0), e.target, ShellsRead(h, e), e.cascade, e.at);
    }
  }

  lemma {:induction false} AllComposedKeepReceipt(h: seq<World>, w: World, rs: seq<Request>, next: World)
    requires (forall i | 0 <= i < |rs| :: Composes(rs[i])) && Effects(h, w, rs) == Some(next)
    ensures SameScopeReceipt(w, next)
    decreases |rs|
  {
    if rs != [] {
      var mid := FirstKeepsReceipt(h, w, rs, next);
      assert forall i | 0 <= i < |rs[1..]| :: rs[1..][i] == rs[i + 1];
      AllComposedKeepReceipt(h, mid, rs[1..], next);
    }
  }

  lemma {:induction false} FirstKeepsReceipt(h: seq<World>, w: World, rs: seq<Request>, next: World) returns (mid: World)
    requires rs != [] && Composes(rs[0]) && Effects(h, w, rs) == Some(next)
    ensures SameScopeReceipt(w, mid) && Effects(h, mid, rs[1..]) == Some(next)
  {
    mid := Effect(h, w, rs[0]).value;
    ComposedKeepsReceipt(h, w, rs[0], mid);
  }

  /** The one request that can make a scope operation ready is a drain that left the scope empty. */
  lemma {:induction false} OneReadies(h: seq<World>, w: World, r: Request, next: World, serial: nat)
    requires Effect(h, w, r) == Some(next) && Draws(w, serial) && ReadyNow(next, serial)
    ensures ScopeEmpty(next.db) && r.Erasure? && r.erasure.Draining? && r.erasure.draining == serial
  {
    if r.Erasure? {
      match r.erasure
      case Erasing(_, _, _, _, _, _, _) => ComposedKeepsReceipt(h, w, r, next);
      case ScopeStart(_, _, _, n) => StartRuns(Running(w.db, w.audit, 0), n);
      case Draining(_, _, _, _, _) => ReadyByDrain(h, w, r.erasure, next, serial);
      case Acknowledge(t, o, _) => SingleLine(Running(w.db, w.audit, 0), Note(MarkDelivered(t, o)));
    }
  }

  lemma {:induction false} ReadyByDrain(h: seq<World>, w: World, r: ErasureRequest, next: World, serial: nat)
    requires r.Draining? && ErasureEffect(h, w, r) == Some(next) && Draws(w, serial) && ReadyNow(next, serial)
    ensures ScopeEmpty(next.db) && r.draining == serial
  {
    DrainingEffect(h, w, r, next);
    DrainRuns(Running(w.db, w.audit, 0), EraseScope(r.draining), DrainShells(h[r.batchRead].db, r.batch), r.time);
  }

  lemma {:induction false} StepReadies(h: seq<World>, e: Event, w: World, serial: nat)
    requires h != [] && Next(h, e, w) && Draws(h[|h| - 1], serial) && ReadyNow(w, serial)
    ensures ScopeEmpty(w.db)
    ensures e.Commit? && |e.requests| == 1 && e.requests[0].Erasure? && e.requests[0].erasure.Draining?
            && e.requests[0].erasure.draining == serial
  {
    var now := h[|h| - 1];
    match e
    case Commit(rs) =>
      if forall i | 0 <= i < |rs| :: Composes(rs[i]) {
        AllComposedKeepReceipt(h, now, rs, w);
      } else {
        assert rs == [rs[0]];
        OneEffect(h, now, rs[0], w);
        OneReadies(h, now, rs[0], w, serial);
      }
    case Append(_, _, _) =>
  }

  /** A scope operation becomes ready only by a commit of its own drain, and that commit
      leaves no live memory, no live claim and no digest key. */
  lemma {:induction false} ReadyOnlyWhenEmpty(run: Run, i: nat, serial: nat)
    requires IsRun(run) && i + 1 < |run.worlds|
    requires Draws(run.worlds[i], serial) && ReadyNow(run.worlds[i + 1], serial)
    ensures ScopeEmpty(run.worlds[i + 1].db)
    ensures var e := run.events[i];
            e.Commit? && |e.requests| == 1 && e.requests[0].Erasure? && e.requests[0].erasure.Draining?
            && e.requests[0].erasure.draining == serial
  {
    Cut(run, i + 1);
    StepReadies(run.worlds[..i + 1], run.events[i], run.worlds[i + 1], serial);
  }

  // ------------------------------------------------------------- the ledger

  /** A Decision in the ledger belongs to a settled operation, stays as it is, and its
      totals are the rows that operation destroyed, now and in every later state. */
  lemma {:induction false} LedgerIsFinal(run: Run, i: nat, j: nat, o: Operation)
    requires IsRun(run) && i <= j < |run.worlds| && o in run.worlds[i].ledger
    ensures Settled(run.worlds[i], o)
    ensures o in run.worlds[j].ledger && run.worlds[j].ledger[o] == run.worlds[i].ledger[o]
    ensures run.worlds[i].ledger[o].totals == Tally(run.worlds[j], o)
    ensures run.worlds[i].ledger[o].batches == BatchesOf(run.worlds[j].audit.journal, o)
  {
    StatesFollow(run, i, j);
  }

  /** Between two states a drain that commits adds to its operation exactly the rows gone
      from the tables in between. */
  lemma {:induction false} DrainIsTallied(run: Run, i: nat, r: ErasureRequest)
    requires IsRun(run) && i < |run.events| && run.events[i] == Commit([Erasure(r)]) && r.Draining?
    ensures var a, b := run.worlds[i], run.worlds[i + 1];
            Tally(b, EraseScope(r.draining)) == Plus(Tally(a, EraseScope(r.draining)), Destroyed(a.db, b.db))
            && Draws(a, r.draining)
  {
    SoloErasure(run, i, r);
    DrainingKeeps(run.worlds[..i + 1], run.worlds[i], r, run.worlds[i + 1]);
  }

  /** The same for the erasure of one memory, which happens once. */
  lemma {:induction false} ErasureIsTallied(run: Run, i: nat, r: ErasureRequest)
    requires IsRun(run) && i < |run.events| && run.events[i] == Commit([Erasure(r)]) && r.Erasing?
    ensures var a, b := run.worlds[i], run.worlds[i + 1];
            && EraseMemory(r.target) !in a.started && Settled(b, EraseMemory(r.target))
            && Tally(b, EraseMemory(r.target)) == Destroyed(a.db, b.db)
  {
    SoloErasure(run, i, r);
    ErasingKeeps(run.worlds[..i + 1], run.worlds[i], r, run.worlds[i + 1]);
    if EraseMemory(r.target) !in run.worlds[i].started {
      UnstartedIsZero(run, i, EraseMemory(r.target));
    }
    FirstTally(run.worlds[i], run.worlds[i + 1], r.target);
  }

  lemma {:induction false} FirstTally(a: World, b: World, id: MemoryId)
    requires Audited(a) && Audited(b) && ErasedOne(a, b, id)
    requires EraseMemory(id) !in a.started ==> Tally(a, EraseMemory(id)) == ZERO
    ensures EraseMemory(id) !in a.started && Settled(b, EraseMemory(id))
    ensures Tally(b, EraseMemory(id)) == Destroyed(a.db, b.db)
  {
    assert b.audit.receipts[OneMemory(id)].operation == EraseMemory(id);
    ReadyIsSettled(b, OneMemory(id));
  }

  lemma {:induction false} StartedStays(run: Run, n: nat, o: Operation)
    requires IsRun(run) && 0 < n < |run.worlds| && o !in run.worlds[n].started
    ensures o !in run.worlds[n - 1].started
  {
    StatesFollow(run, n - 1, n);
  }

  lemma {:induction false} TallyStays(run: Run, n: nat, o: Operation)
    requires IsRun(run) && 0 < n < |run.worlds| && o !in run.worlds[n].started
    ensures Tally(run.worlds[n], o) == Tally(run.worlds[n - 1], o)
  {
    StepWithin(run, n, run.worlds[..n], run.worlds[n - 1], run.events[n - 1], run.worlds[n]);
    StepTally(run.worlds[..n], run.worlds[n - 1], run.events[n - 1], run.worlds[n], o);
  }

  /** What was never started destroyed nothing. */
  lemma {:induction false} UnstartedIsZero(run: Run, n: nat, o: Operation)
    requires IsRun(run) && n < |run.worlds| && o !in run.worlds[n].started
    ensures Tally(run.worlds[n], o) == ZERO
    decreases n
  {
    if n > 0 {
      StartedStays(run, n, o);
      UnstartedIsZero(run, n - 1, o);
      TallyStays(run, n, o);
    }
  }

  lemma {:induction false} StepTally(h: seq<World>, last: World, e: Event, w: World, o: Operation)
    requires h != [] && last == h[|h| - 1] && Fit(last) && History(h, last) && Next(h, e, w) && o !in w.started
    ensures Tally(w, o) == Tally(last, o)
  {
    if e.Commit? {
      EffectsTally(h, last, e.requests, w, o);
    }
  }

  lemma {:induction false} DrainTally(h: seq<World>, w: World, r: ErasureRequest, next: World, o: Operation)
    requires Fit(w) && History(h, w) && r.Draining? && ErasureEffect(h, w, r) == Some(next) && o !in next.started
    ensures Tally(next, o) == Tally(w, o)
  {
    DrainingKeeps(h, w, r, next);
    DrainedIsStarted(w, next, r.draining);
  }

  lemma {:induction false} DrainedIsStarted(w: World, next: World, serial: nat)
    requires Audited(w) && DrainedOnce(w, next, serial)
    ensures EraseScope(serial) in next.started
    ensures forall o: Operation | o != EraseScope(serial) :: Tally(next, o) == Tally(w, o)
  {
    assert ReceiptFits(w, WholeScope);
  }

  lemma {:induction false} EffectTally(h: seq<World>, w: World, r: Request, next: World, o: Operation)
    requires Fit(w) && History(h, w) && Effect(h, w, r) == Some(next) && o !in next.started
    ensures Tally(next, o) == Tally(w, o)
  {
    if r.Erasure? && r.erasure.Draining? {
      DrainTally(h, w, r.erasure, next, o);
    }
  }

  lemma {:induction false} EffectsTally(h: seq<World>, w: World, rs: seq<Request>, next: World, o: Operation)
    requires Fit(w) && History(h, w) && Effects(h, w, rs) == Some(next) && o !in next.started
    ensures Tally(next, o) == Tally(w, o)
    decreases |rs|
  {
    if rs != [] {
      var mid := Effect(h, w, rs[0]).value;
      EffectKeeps(h, w, rs[0], mid);
      HistoryFollows(h, w, mid);
      EffectsKeep(h, mid, rs[1..], next);
      EffectsTally(h, mid, rs[1..], next, o);
      EffectTally(h, w, rs[0], mid, o);
    }
  }

  // -------------------------------------------------- after it has completed

  /** An operation that drains was settled in no state before: a completed operation
      cannot touch what arrived after it. */
  lemma {:induction false} SettledNeverDrains(run: Run, i: nat, j: nat, r: ErasureRequest)
    requires IsRun(run) && i <= j < |run.events| && run.events[j] == Commit([Erasure(r)]) && r.Draining?
    ensures !Settled(run.worlds[i], EraseScope(r.draining))
  {
    DrainIsTallied(run, j, r);
    assert Draws(run.worlds[j], r.draining);
    StatesFollow(run, i, j);
    SettledStays(run.worlds[i], run.worlds[j], r.draining);
  }

  lemma {:induction false} SettledStays(a: World, b: World, serial: nat)
    requires Records(a, b) && Draws(b, serial)
    ensures !Settled(a, EraseScope(serial))
  {
    assert !Settled(b, EraseScope(serial));
  }

  /** Starting an operation replaces only a receipt that is delivered, so the operation
      before it is settled and in the ledger: two never drain at once. */
  lemma {:induction false} StartsOverDelivered(run: Run, i: nat, r: ErasureRequest)
    requires IsRun(run) && i < |run.events| && run.events[i] == Commit([Erasure(r)]) && r.ScopeStart?
    ensures var a, b := run.worlds[i], run.worlds[i + 1];
            && Draws(b, r.serial)
            && (WholeScope in a.audit.receipts ==>
                  a.audit.receipts[WholeScope].delivered && a.audit.receipts[WholeScope].ready
                  && a.audit.receipts[WholeScope].operation in a.ledger)
  {
    SoloErasure(run, i, r);
    StartKeeps(run.worlds[..i + 1], run.worlds[i], r, run.worlds[i + 1]);
    assert ReceiptFits(run.worlds[i], WholeScope);
  }

  ghost predicate LiveClaim(db: Db) {
    exists c :: c in db.claims.history && !db.claims.history[c].erased
  }

  // ----------------------------------------------------- drains always commit

  /** Deletions of chunks follow the deletions of the vectors that name them. */
  ghost predicate ChunksFree(t: Details, sts: seq<Statement>) {
    forall i | 0 <= i < |sts| && sts[i].OnDetails? && sts[i].detail.Sweep? && sts[i].detail.table.ChunkTable? ::
      forall p | p in t.vectors :: p.memory != sts[i].detail.id
  }

  lemma {:induction false} ShrinkRuns(db: Db, st: Statement)
    requires Shrinks(st) && ChunksFree(db.details, [st])
    ensures Exec(db, st).Ran?
  {
    assert [st][0] == st;
    if st.OnDetails? && st.detail.Sweep? && st.detail.table.ChunkTable? {
      var gone := set p | p in db.details.chunks && p.memory == st.detail.id;
      assert WriteDetail(db, st.detail) == DeleteChunkRows(db.details, gone);
    }
  }

  lemma {:induction false} FreeAllRun(db: Db, sts: seq<Statement>)
    requires AllShrink(sts) && ChunksFree(db.details, sts)
    ensures ExecAll(db, sts).Ran?
    decreases |sts|
  {
    if sts != [] {
      assert Shrinks(sts[0]);
      assert ChunksFree(db.details, [sts[0]]);
      ShrinkRuns(db, sts[0]);
      var next := Exec(db, sts[0]).db;
      ShrinkStep(db, sts[0]);
      assert forall i | 0 <= i < |sts[1..]| :: sts[1..][i] == sts[i + 1];
      FreeAllRun(next, sts[1..]);
    }
  }

  /** After the vectors of `shells` are gone, so may be their chunks. */
  lemma {:induction false} VectorsThenChunks(db: Db, first: seq<Statement>, rest: seq<Statement>, shells: seq<Shell>)
    requires first == SweepOne(VectorTable, shells)
    requires AllShrink(rest)
    requires forall st | st in rest && st.OnDetails? && st.detail.Sweep? :: Names(shells, st.detail.id)
    ensures ExecAll(db, first + rest).Ran?
  {
    SweepOneMembers(VectorTable, shells);
    forall i | 0 <= i < |first| ensures Shrinks(first[i]) && first[i].detail.table == VectorTable {
      assert first[i] in first;
    }
    FreeAllRun(db, first);
    StoreInvariants.ExecAllAppend(db, first, rest);
    var mid := ExecAll(db, first).db;
    ShrinkAll(db, first);
    forall i, q | 0 <= i < |rest| && rest[i].OnDetails? && rest[i].detail.Sweep? && q in mid.details.vectors
      ensures q.memory != rest[i].detail.id
    {
      assert rest[i] in rest;
      var j :| 0 <= j < |shells| && shells[j].id == rest[i].detail.id;
      assert OnDetails(Sweep(VectorTable, shells[j].id)) in first;
      var k :| 0 <= k < |first| && first[k] == OnDetails(Sweep(VectorTable, shells[j].id));
      assert Emptied(first[k], mid.details);
    }
    FreeAllRun(mid, rest);
  }

  /** Vectors first, then chunks: an erasure batch violates no foreign key, whatever its
      shells and whatever the state. */
  lemma {:induction false} BatchNeverAborts(db: Db, p: Plan)
    requires Proper(p)
    ensures ExecAll(db, Built(p).statements).Ran?
  {
    BatchBuries(p);
    VectorsFirst(p);
    BuriesRun(db, Built(p).statements, SweepOne(VectorTable, p.shells), p.shells);
  }

  lemma {:induction false} BuriesRun(db: Db, sts: seq<Statement>, first: seq<Statement>, shells: seq<Shell>)
    requires Buries(sts, shells) && first == SweepOne(VectorTable, shells) && |first| <= |sts| && sts[..|first|] == first
    ensures ExecAll(db, sts).Ran?
  {
    var rest := sts[|first|..];
    assert sts == first + rest;
    RestBuries(sts, |first|, shells);
    VectorsThenChunks(db, first, rest, shells);
  }

  lemma {:induction false} RestBuries(sts: seq<Statement>, n: nat, shells: seq<Shell>)
    requires Buries(sts, shells) && n <= |sts|
    ensures AllShrink(sts[n..])
    ensures forall st | st in sts[n..] && st.OnDetails? && st.detail.Sweep? :: Names(shells, st.detail.id)
  {
    forall i | 0 <= i < |sts[n..]| ensures Shrinks(sts[n..][i]) {
      assert sts[n..][i] == sts[i + n];
    }
    forall st | st in sts[n..] ensures st in sts {
    }
  }

  lemma {:induction false} SweepsVectorsFirst(shells: seq<Shell>)
    ensures SweepStatements(TABLES, shells) == SweepOne(VectorTable, shells) + SweepStatements(TABLES[1..], shells)
  {
    assert TABLES[0] == VectorTable;
  }

  lemma {:induction false} VectorsFirst(p: Plan)
    requires Proper(p)
    ensures var first := SweepOne(VectorTable, p.shells);
            |first| <= |Built(p).statements| && Built(p).statements[..|first|] == first
  {
    SweepsVectorsFirst(p.shells);
    Prefixed(SweepOne(VectorTable, p.shells), SweepStatements(TABLES[1..], p.shells), p.keys, MoveStatements(p.shells),
             TombstoneStatements(p.shells, p.now), QueueStatements(p.shells), p.tail);
  }

  lemma {:induction false} Prefixed(a: seq<Statement>, b: seq<Statement>, c: seq<Statement>, d: seq<Statement>,
                                    e: seq<Statement>, f: seq<Statement>, g: seq<Statement>)
    ensures (a + b + c + d + e + f + g)[..|a|] == a
  {
  }

  /** Any drain of an operation that is still draining commits. */
  lemma {:induction false} DrainCommitsAlways(db: Db, audit: Audit, serial: nat, read: Db, batch: nat, now: nat)
    requires WholeScope in audit.receipts && audit.receipts[WholeScope] == Receipt(EraseScope(serial), false, false)
    ensures ExecLines(Running(db, audit, 0), DrainLines(EraseScope(serial), DrainShells(read, batch), now)).Running?
  {
    var shells := DrainShells(read, batch);
    PlansProper(0, shells, false, now);
    BatchNeverAborts(db, DrainPlan(shells, now));
    DrainRuns(Running(db, audit, 0), EraseScope(serial), shells, now);
  }

  /** The erasure of one memory commits exactly when the memory is there and has no receipt. */
  lemma {:induction false} EraseCommitsIff(p: Progress, target: MemoryId, shells: seq<Shell>, cascade: bool, now: nat)
    requires p.Running?
    ensures ExecLines(p, EraseLines(target, shells, cascade, now)).Running?
       <==> (OneMemory(target) !in p.audit.receipts && Present(p.db, target)
             && forall t | t in p.audit.receipts :: p.audit.receipts[t].operation != EraseMemory(target))
  {
    var plan := ErasePlan(target, shells, cascade, now);
    var open, close := Note(InsertReceipt(OneMemory(target), EraseMemory(target))), Note(MarkReady(OneMemory(target)));
    PlansProper(target, shells, cascade, now);
    Bracketed(p, open, plan, EraseMemory(target), close);
    var q := ExecLine(p, open);
    if q.Running? {
      BatchNeverAborts(q.db, plan);
      var r :| StoreErasing.Between(q, r, ExecAll(q.db, Built(plan).statements), EraseMemory(target))
               && ExecLines(p, EraseLines(target, shells, cascade, now)) == ExecLine(r, close);
    }
  }

  /** What a batch over distinct shells that are all there leaves. */
  lemma {:induction false} SparedCount(db: Db, shells: seq<Shell>, end: Db)
    requires Spares(db, shells, end) && StoreCounters.Distinct(shells) && forall m | Names(shells, m) :: Present(db, m)
    ensures |PresentIds(end)| == |PresentIds(db)| - |shells|
  {
    var taken := set i | 0 <= i < |shells| :: shells[i].id;
    DistinctSize(shells);
    forall m ensures m in PresentIds(end) <==> m in PresentIds(db) - taken {
      assert m in PresentIds(end) <==> Present(end, m);
      assert m in PresentIds(db) <==> Present(db, m);
      assert m in taken <==> Names(shells, m);
    }
    assert PresentIds(end) == PresentIds(db) - taken;
    forall m | m in taken ensures m in PresentIds(db) {
      assert Names(shells, m) && Present(db, m);
    }
    Fewer(PresentIds(db), taken);
  }

  lemma {:induction false} EmptyIff(db: Db)
    requires db.details.keys == map[] && forall c | c in db.claims.history :: db.claims.history[c].erased
    ensures ScopeEmpty(db) <==> PresentIds(db) == {}
  {
    if PresentIds(db) == {} {
      forall m | m in db.memory ensures db.memory[m].state == Erased {
        assert m !in PresentIds(db);
      }
    }
  }

  /** A drain of what it has just read takes the batch it read and everything scope-wide. */
  lemma {:induction false} FreshDrain(db: Db, batch: nat, now: nat)
    ensures var end := ExecAll(db, DrainBatch(DrainShells(db, batch), now).statements);
            var limit := if batch < MAX_ACCOUNTED_ERASURE_BATCH then batch else MAX_ACCOUNTED_ERASURE_BATCH;
            && end.Ran?
            && |PresentIds(end.db)| == (if |PresentIds(db)| <= limit then 0 else |PresentIds(db)| - limit)
            && (ScopeEmpty(end.db) <==> |PresentIds(end.db)| == 0)
            && Destroyed(db, end.db).memories == |PresentIds(db)| - |PresentIds(end.db)|
  {
    var shells := DrainShells(db, batch);
    var plan := DrainPlan(shells, now);
    PlansProper(0, shells, false, now);
    BatchNeverAborts(db, plan);
    BatchBuries(plan);
    BurySpares(db, Built(plan).statements, shells);
    DrainShellsRead(db, batch);
    var end := ExecAll(db, Built(plan).statements).db;
    SparedCount(db, shells, end);
    ScopeWideGone(db, plan);
    EmptyIff(end);
  }

  lemma {:induction false} DistinctSize(shells: seq<Shell>)
    requires StoreCounters.Distinct(shells)
    ensures |set i | 0 <= i < |shells| :: shells[i].id| == |shells|
    decreases |shells|
  {
    var all := set i | 0 <= i < |shells| :: shells[i].id;
    if shells == [] {
      assert all == {};
    } else {
      var last, rest := shells[|shells| - 1], shells[..|shells| - 1];
      DistinctSize(rest);
      var some := set i | 0 <= i < |rest| :: rest[i].id;
      forall x ensures x in all <==> x in some + {last.id} {
        if x in some {
          var i :| 0 <= i < |rest| && rest[i].id == x;
          assert shells[i].id == x;
        }
        if x in all && x != last.id {
          var i :| 0 <= i < |shells| && shells[i].id == x;
          assert rest[i].id == x;
        }
      }
      assert all == some + {last.id};
      forall i | 0 <= i < |rest| ensures rest[i].id != last.id {
        assert rest[i] == shells[i];
      }
    }
  }

  /** The scope-wide part of a drain: no digest key and no live claim is left. */
  lemma {:induction false} ScopeWideGone(db: Db, p: Plan)
    requires Proper(p) && p.keys == [OnDetails(DestroyKeys)]
    requires p.tail == [OnClaims(EraseScopeClaims), OnClaims(ClearClaimSources)]
    requires ExecAll(db, Built(p).statements).Ran?
    ensures var end := ExecAll(db, Built(p).statements).db;
            end.details.keys == map[] && forall c | c in end.claims.history :: end.claims.history[c].erased
  {
    KeysGone(db, p);
    var front := p.head + p.keys + MoveStatements(p.shells) + TombstoneStatements(p.shells, p.now) + QueueStatements(p.shells);
    assert Built(p).statements == front + ([p.tail[0]] + [p.tail[1]]);
    ClaimsGone(db, front);
  }

  lemma {:induction false} KeysGone(db: Db, p: Plan)
    requires Proper(p) && p.keys == [OnDetails(DestroyKeys)] && ExecAll(db, Built(p).statements).Ran?
    ensures ExecAll(db, Built(p).statements).db.details.keys == map[]
  {
    BatchBuries(p);
    BatchParts(Built(p), p.head, p.keys, p.shells, p.now, p.tail, p.marks);
    assert p.keys[0] in p.keys;
    DestroyEmpties(db, Built(p).statements);
  }

  lemma {:induction false} DestroyEmpties(db: Db, sts: seq<Statement>)
    requires AllShrink(sts) && OnDetails(DestroyKeys) in sts && ExecAll(db, sts).Ran?
    ensures ExecAll(db, sts).db.details.keys == map[]
  {
    ShrinkAll(db, sts);
    var i :| 0 <= i < |sts| && sts[i] == OnDetails(DestroyKeys);
    assert Emptied(sts[i], ExecAll(db, sts).db.details);
  }

  lemma {:induction false} ClaimsGone(db: Db, front: seq<Statement>)
    requires ExecAll(db, front + ([OnClaims(EraseScopeClaims)] + [OnClaims(ClearClaimSources)])).Ran?
    ensures var end := ExecAll(db, front + ([OnClaims(EraseScopeClaims)] + [OnClaims(ClearClaimSources)])).db;
            forall c | c in end.claims.history :: end.claims.history[c].erased
  {
    var a, b := OnClaims(EraseScopeClaims), OnClaims(ClearClaimSources);
    StoreInvariants.ExecAllAppend(db, front, [a] + [b]);
    var mid := ExecAll(db, front).db;
    StoreOperations.HeadFirst(mid, a, [b]);
    StoreOperations.HeadFirst(Exec(mid, a).db, b, []);
    assert [b] + [] == [b];
  }
}
