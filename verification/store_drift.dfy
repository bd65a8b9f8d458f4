/** How far the counters of erased memories run ahead of the rows. */
module StoreDrift {

  import opened Succession
  import opened Wrappers
  import opened StoreTables
  import opened StoreStaging
  import opened StoreCounters
  import opened StoreErasing
  import opened StoreRequests
  import opened StoreRuns
  import StoreWorld
  import StoreResidue
  import StoreSteps
  import StoreBalance
  import StoreInvariants

  /** What the counter of erased memories of one kind says beyond the rows there are. */
  ghost function Drift(db: Db, kind: Kind): int {
    Count(db, Bucket(kind, Erased)) - |RowsIn(db.memory, Bucket(kind, Erased))|
  }

  // --------------------------------------------------- statements beside it

  /** A statement that neither makes a tombstone nor counts one. */
  predicate Aside(st: Statement) {
    match st
    case OnRows(row) => !row.Tombstone? && (row.InsertMemory? ==> row.row.state != Erased)
    case OnCounters(counter) =>
      (match counter
       case Adjust(bucket, _) => bucket.state != Erased
       case IncrementErased(_) => false
       case _ => true)
    case _ => true
  }

  lemma {:induction false} AsideRows(db: Db, row: RowStatement, b: Bucket)
    requires Aside(OnRows(row)) && WriteRow(db, row).Wrote? && b.state == Erased
    ensures RowsIn(WriteRow(db, row).table, b) == RowsIn(db.memory, b)
  {
    var after := WriteRow(db, row).table;
    forall m ensures m in RowsIn(after, b) <==> m in RowsIn(db.memory, b) {
    }
  }

  lemma {:induction false} AsideCounts(db: Db, st: Statement, b: Bucket)
    requires Aside(st) && Exec(db, st).Ran? && b.state == Erased
    ensures Count(Exec(db, st).db, b) == Count(db, b)
  {
  }

  ghost predicate AllAside(sts: seq<Statement>) {
    forall i | 0 <= i < |sts| :: Aside(sts[i])
  }

  lemma {:induction false} AsideAll(db: Db, sts: seq<Statement>, kind: Kind)
    requires AllAside(sts) && ExecAll(db, sts).Ran?
    ensures Drift(ExecAll(db, sts).db, kind) == Drift(db, kind)
    decreases |sts|
  {
    if sts != [] {
      var b := Bucket(kind, Erased);
      assert Aside(sts[0]);
      AsideCounts(db, sts[0], b);
      if sts[0].OnRows? {
        AsideRows(db, sts[0].row, b);
      }
      assert forall i | 0 <= i < |sts[1..]| :: sts[1..][i] == sts[i + 1];
      AsideAll(Exec(db, sts[0]).db, sts[1..], kind);
    }
  }

  lemma {:induction false} LevelAside(sts: seq<Statement>)
    requires AllLevel(sts)
    ensures AllAside(sts)
  {
    forall i | 0 <= i < |sts| ensures Aside(sts[i]) {
      assert Level(sts[i]);
    }
  }

  lemma {:induction false} InsertAside(observed: Db, c: Candidate, key: Option<KeyId>)
    ensures AllAside(InsertStatements(observed, c, key))
  {
    var front, back := StoreBalance.InsertShape(observed, c, key);
    var row, unit := OnRows(InsertMemory(c.id, RowOf(c))), OnCounters(Adjust(Bucket(c.kind, StateOf(c)), 1));
    LevelAside(front);
    LevelAside(back);
    var sts := [row] + (front + ([unit] + back));
    forall i | 0 <= i < |sts| ensures Aside(sts[i]) {
      assert sts[i] == if i == 0 then row else if i <= |front| then front[i - 1]
                       else if i == |front| + 1 then unit else back[i - |front| - 2];
    }
  }

  lemma {:induction false} PrepareAside(kinds: seq<Kind>)
    ensures AllAside(PrepareExpiry(kinds))
    decreases |kinds|
  {
    if kinds != [] {
      PrepareAside(kinds[1..]);
    }
  }

  lemma {:induction false} ExpiryAside(kinds: seq<Kind>, ids: set<MemoryId>)
    ensures AllAside(ExpiryCounters(kinds, ids))
    decreases |kinds|
  {
    if kinds != [] {
      ExpiryAside(kinds[1..], ids);
    }
  }

  lemma {:induction false} SupersedeAside(walked: map<MemoryId, MemoryId>, rowRead: Db, prior: MemoryId, heir: MemoryId, at: nat)
    requires StoreInvariants.RowsAgree(rowRead) && SupersedeStatements(walked, rowRead, prior, heir, at).Some?
    ensures AllAside(SupersedeStatements(walked, rowRead, prior, heir, at).value)
  {
    assert StoreInvariants.RowAgrees(rowRead.memory[prior]);
  }

  lemma {:induction false} CaptureAside(h: seq<World>, r: LifeRequest)
    requires r.Capture? && LifeStaged(h, r).Some?
    ensures AllAside(LifeStaged(h, r).value)
  {
    match Holder(h[r.holder].db, FingerprintOf(r.candidate.kind, r.candidate.content))
    case None => InsertAside(h[r.observed].db, r.candidate, r.key);
    case Some(id) => LevelAside(LifeStaged(h, r).value);
  }

  lemma {:induction false} LifeAside(h: seq<World>, db: Db, r: LifeRequest)
    requires Past(h, db) && LifeStaged(h, r).Some?
    ensures AllAside(LifeStaged(h, r).value)
  {
    match r
    case Capture(_, _, _, _, _, _) => CaptureAside(h, r);
    case Supersession(_, _, _, _, _) => SupersessionAside(h, db, r);
    case Materialize(kinds) => PrepareAside(kinds);
    case Expiry(_, _, _, ids, kinds, now) => BatchAside(kinds, ids, now);
    case _ => QuietAside(h, r);
  }

  lemma {:induction false} SupersessionAside(h: seq<World>, db: Db, r: LifeRequest)
    requires Past(h, db) && r.Supersession? && LifeStaged(h, r).Some?
    ensures AllAside(LifeStaged(h, r).value)
  {
    SupersedeAside(r.walked, h[r.found].db, r.prior, r.heir, r.at);
  }

  lemma {:induction false} BatchAside(kinds: seq<Kind>, ids: set<MemoryId>, now: nat)
    ensures AllAside(ExpiryStatements(kinds, ids, now))
  {
    ExpiryAside(kinds, ids);
  }

  lemma {:induction false} QuietAside(h: seq<World>, r: LifeRequest)
    requires (r.RefusalKey? || r.Deadline? || r.Redigesting? || r.ClaimRecord?) && LifeStaged(h, r).Some?
    ensures AllAside(LifeStaged(h, r).value)
  {
    if r.Redigesting? {
      RedigestFamiliar(h[r.stale].db, r.rows);
    }
    LevelAside(LifeStaged(h, r).value);
  }

  lemma {:induction false} PipelineAside(h: seq<World>, r: PipelineRequest)
    requires PipelineStaged(h, r).Some?
    ensures AllAside(PipelineStaged(h, r).value)
  {
    match r {
      case Embedding(work, _, pieces) => PieceLevel(work.memory, work.revision, 0, pieces);
      case Reembedding(missing, revision, modelId, after, limit) =>
        ReembedLevel(Selected(h[missing].db, revision, after, limit), revision, modelId);
      case _ =>
    }
    LevelAside(PipelineStaged(h, r).value);
  }

  // ---------------------------------------------------------------- batches

  lemma {:induction false} ShiftLess(memory: map<MemoryId, MemoryRow>, shell: Shell, now: nat, shells: seq<Shell>, b: Bucket)
    requires b.state == Erased
    ensures Shift(BuriedOne(memory, shell, now), shells, b) <= Shift(memory, shells, b)
    decreases |shells|
  {
    if shells != [] {
      ShiftLess(memory, shell, now, shells[1..], b);
    }
  }

  /** Each shell still there is counted as often as it is named, but buried once. */
  lemma {:induction false} BurialAtMost(memory: map<MemoryId, MemoryRow>, shells: seq<Shell>, now: nat, b: Bucket)
    requires b.state == Erased
    ensures |RowsIn(Buried(memory, shells, now), b)| <= |RowsIn(memory, b)| + Shift(memory, shells, b)
    decreases |shells|
  {
    if shells != [] {
      var next := BuriedOne(memory, shells[0], now);
      BurialAtMost(next, shells[1..], now, b);
      ShiftLess(memory, shells[0], now, shells[1..], b);
      if next != memory {
        BucketMove(memory, shells[0].id, next[shells[0].id], b);
      }
    }
  }

  lemma {:induction false} BuriedTwice(memory: map<MemoryId, MemoryRow>, shells: seq<Shell>, now: nat, b: Bucket)
    requires shells != [] && StoreResidue.Names(shells[1..], shells[0].id)
    ensures RowsIn(Buried(memory, shells, now), b) == RowsIn(Buried(memory, shells[1..], now), b)
  {
    BuriedStates(memory, shells, now);
    BuriedStates(memory, shells[1..], now);
    forall m | m in memory ensures StoreResidue.Names(shells, m) <==> StoreResidue.Names(shells[1..], m) {
      SameNames(shells, m);
    }
  }

  /** The first shell's memory is there, of this kind, and named again. */
  ghost predicate Repeats(db: Db, shells: seq<Shell>, kind: Kind) {
    shells != [] && StoreResidue.Names(shells[1..], shells[0].id) && Present(db, shells[0].id) && db.memory[shells[0].id].kind == kind
  }

  /** A destructive batch never brings the counter nearer to the rows, and takes it further
      away when it names its first memory again. */
  lemma {:induction false} BatchDrifts(db: Db, p: Plan, kind: Kind)
    requires Proper(p) && ExecAll(db, Built(p).statements).Ran?
    ensures var end := ExecAll(db, Built(p).statements).db;
            && Drift(end, kind) >= Drift(db, kind)
            && (Repeats(db, p.shells, kind) ==> Drift(end, kind) > Drift(db, kind))
  {
    var b := Bucket(kind, Erased);
    var end := ExecAll(db, Built(p).statements).db;
    BatchCounters(db, Built(p), p.head, p.keys, p.shells, p.now, p.tail, p.marks);
    assert Count(end, b) == Count(db, b) + Shift(db.memory, p.shells, b);
    assert RowsIn(end.memory, b) == RowsIn(Buried(db.memory, p.shells, p.now), b);
    BurialAtMost(db.memory, p.shells, p.now, b);
    if p.shells != [] && StoreResidue.Names(p.shells[1..], p.shells[0].id) {
      BuriedTwice(db.memory, p.shells, p.now, b);
      BurialAtMost(db.memory, p.shells[1..], p.now, b);
    }
  }

  // -------------------------------------------------------------- requests

  ghost predicate Relists(h: seq<World>, e: ErasureRequest, i: nat) {
    e.Erasing? && i < |e.ids| && i < |e.looks| && e.looks[i] < |h|
    && e.ids[i] == e.target && Present(h[e.looks[i]].db, e.target)
  }

  /** An erasure whose listing of derived memories holds its own target, which the lookup
      finds alive: the target is named twice. */
  ghost predicate Doubles(h: seq<World>, r: Request) {
    r.Erasure? && exists i: nat :: Relists(h, r.erasure, i)
  }

  ghost function Moments(h: seq<World>, e: ErasureRequest): (moments: seq<Db>)
    requires e.Erasing? && |e.looks| == |e.ids| && (forall i | 0 <= i < |e.looks| :: e.looks[i] < |h|)
  {
    seq(|e.ids|, i requires 0 <= i < |e.looks| => h[e.looks[i]].db)
  }

  lemma {:induction false} ShellsDouble(h: seq<World>, w: World, e: ErasureRequest)
    requires e.Erasing? && Stageable(h, w, e)
    ensures ShellsRead(h, e) != [] && ShellsRead(h, e)[0].id == e.target
    ensures StoreResidue.Names(ShellsRead(h, e)[1..], e.target) <==> Doubles(h, Erasure(e))
    ensures !Doubles(h, Erasure(e)) ==> Distinct(ShellsRead(h, e))
  {
    var moments := Moments(h, e);
    var rest := ShellsAt(moments, e.ids);
    ShellsAtNames(moments, e.ids);
    assert ShellsRead(h, e) == [ShellOf(h[e.read].db, e.target)] + rest;
    assert ShellsRead(h, e)[1..] == rest;
    if StoreResidue.Names(rest, e.target) {
      var i: nat :| ListedAlive(moments, e.ids, i) && e.ids[i] == e.target;
      assert Relists(h, e, i);
    } else {
      forall i: nat ensures !Relists(h, e, i) {
        assert Relists(h, e, i) ==> ListedAlive(moments, e.ids, i);
      }
      StoreBalance.DistinctPrepends(ShellOf(h[e.read].db, e.target), rest);
    }
  }

  /** The kind whose counter an erasure takes away from its rows. */
  ghost predicate DoublesKind(h: seq<World>, w: World, r: Request, kind: Kind) {
    Doubles(h, r) && r.erasure.target in w.db.memory && w.db.memory[r.erasure.target].kind == kind
  }

  lemma {:induction false} ErasingDrifts(h: seq<World>, w: World, e: ErasureRequest, next: World, kind: Kind)
    requires e.Erasing? && ErasureEffect(h, w, e) == Some(next)
    ensures Present(w.db, e.target) && Drift(next.db, kind) >= Drift(w.db, kind)
    ensures DoublesKind(h, w, Erasure(e), kind) ==> Drift(next.db, kind) > Drift(w.db, kind)
  {
    var shells := ShellsRead(h, e);
    var p := ErasePlan(e.target, shells, e.cascade, e.at);
    PlansProper(e.target, shells, e.cascade, e.at);
    EraseRuns(StoreWorld.Running(w.db, w.audit, 0), e.target, shells, e.cascade, e.at);
    ShellsDouble(h, w, e);
    BatchDrifts(w.db, p, kind);
  }

  lemma {:induction false} DrainingDrifts(h: seq<World>, w: World, e: ErasureRequest, next: World, kind: Kind)
    requires e.Draining? && ErasureEffect(h, w, e) == Some(next)
    ensures Drift(next.db, kind) >= Drift(w.db, kind)
  {
    var shells := StoreWorld.DrainShells(h[e.batchRead].db, e.batch);
    DrainingEffect(h, w, e, next);
    PlansProper(0, shells, false, e.time);
    DrainRuns(StoreWorld.Running(w.db, w.audit, 0), StoreWorld.EraseScope(e.draining), shells, e.time);
    BatchDrifts(w.db, DrainPlan(shells, e.time), kind);
  }

  lemma {:induction false} EffectDrifts(h: seq<World>, w: World, r: Request, next: World, kind: Kind)
    requires Past(h, w.db) && Effect(h, w, r) == Some(next)
    ensures Drift(next.db, kind) >= Drift(w.db, kind)
    ensures DoublesKind(h, w, r, kind) ==> Drift(next.db, kind) > Drift(w.db, kind)
  {
    match r
    case Life(life) =>
      LifeAside(h, w.db, life);
      AsideAll(w.db, LifeStaged(h, life).value, kind);
    case Pipeline(pipeline) =>
      PipelineAside(h, pipeline);
      AsideAll(w.db, PipelineStaged(h, pipeline).value, kind);
    case Erasure(e) =>
      if e.Erasing? {
        ErasingDrifts(h, w, e, next, kind);
      } else if e.Draining? {
        DrainingDrifts(h, w, e, next, kind);
      } else {
        StoreSteps.ErasureRuns(h, w, e, next);
      }
  }

  ghost predicate SomeDoubles(h: seq<World>, rs: seq<Request>) {
    exists n :: 0 <= n < |rs| && Doubles(h, rs[n])
  }

  lemma {:induction false} FirstDrifts(h: seq<World>, w: World, rs: seq<Request>, next: World, kind: Kind) returns (mid: World)
    requires History(h, w) && Fit(w) && rs != [] && Effects(h, w, rs) == Some(next)
    ensures History(h, mid) && Fit(mid) && Effects(h, mid, rs[1..]) == Some(next)
    ensures Effect(h, w, rs[0]) == Some(mid) && Drift(mid.db, kind) >= Drift(w.db, kind)
    ensures DoublesKind(h, w, rs[0], kind) ==> Drift(mid.db, kind) > Drift(w.db, kind)
  {
    mid := StoreSteps.EffectsFirst(h, w, rs, next);
    HistoryIsPast(h, w);
    EffectDrifts(h, w, rs[0], mid, kind);
    EffectKeeps(h, w, rs[0], mid);
    HistoryFollows(h, w, mid);
  }

  lemma {:induction false} EffectsDrift(h: seq<World>, w: World, rs: seq<Request>, next: World, kind: Kind)
    requires History(h, w) && Fit(w) && Effects(h, w, rs) == Some(next)
    ensures Drift(next.db, kind) >= Drift(w.db, kind)
    decreases |rs|
  {
    if rs != [] {
      var mid := FirstDrifts(h, w, rs, next, kind);
      EffectsDrift(h, mid, rs[1..], next, kind);
    }
  }

  lemma {:induction false} DoubledKind(h: seq<World>, w: World, r: Request) returns (kind: Kind)
    requires Effect(h, w, r).Some? && Doubles(h, r)
    ensures DoublesKind(h, w, r, kind)
  {
    ErasingDrifts(h, w, r.erasure, Effect(h, w, r).value, Fact);
    kind := w.db.memory[r.erasure.target].kind;
  }

  /** A transaction with such an erasure in it takes some counter away from its rows. */
  lemma {:induction false} EffectsDouble(h: seq<World>, w: World, rs: seq<Request>, next: World) returns (kind: Kind)
    requires History(h, w) && Fit(w) && Effects(h, w, rs) == Some(next) && SomeDoubles(h, rs)
    ensures Drift(next.db, kind) > Drift(w.db, kind)
    decreases |rs|
  {
    if Doubles(h, rs[0]) {
      kind := DoubledKind(h, w, rs[0]);
      var mid := FirstDrifts(h, w, rs, next, kind);
      EffectsDrift(h, mid, rs[1..], next, kind);
    } else {
      var mid := FirstDrifts(h, w, rs, next, Fact);
      LaterDoubles(h, rs);
      kind := EffectsDouble(h, mid, rs[1..], next);
      mid := FirstDrifts(h, w, rs, next, kind);
    }
  }

  lemma {:induction false} LaterDoubles(h: seq<World>, rs: seq<Request>)
    requires rs != [] && !Doubles(h, rs[0])
    ensures SomeDoubles(h, rs) <==> SomeDoubles(h, rs[1..])
  {
    if SomeDoubles(h, rs) {
      var n :| 0 <= n < |rs| && Doubles(h, rs[n]);
      assert rs[1..][n - 1] == rs[n];
    }
    if SomeDoubles(h, rs[1..]) {
      var n :| 0 <= n < |rs[1..]| && Doubles(h, rs[1..][n]);
      assert rs[1..][n] == rs[n + 1];
    }
  }
}
