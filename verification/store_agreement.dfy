/** Counters over whole runs: when they are the numbers of rows, and when not. */
module StoreAgreement {

  import opened Succession
  import opened Wrappers
  import opened StoreTables
  import opened StoreCounters
  import opened StoreRequests
  import opened StoreRuns
  import opened StoreSteps
  import opened StoreDrift
  import StoreStaging
  import StoreWorld
  import StoreErasing
  import StoreBalance
  import StoreResidue
  import StoreOperations

  /** No capture names its own memory among its parents. */
  predicate Wholesome(r: Request) {
    r.Life? && r.life.Capture? ==> r.life.candidate.id !in r.life.candidate.content.parents
  }

  ghost predicate WholesomeRun(run: Run) {
    forall i | 0 <= i < |run.events| :: run.events[i].Commit? ==> AllWholesome(run.events[i].requests)
  }

  ghost predicate AllWholesome(rs: seq<Request>) {
    forall k | 0 <= k < |rs| :: Wholesome(rs[k])
  }

  /** No memory is recorded as derived from itself. */
  ghost predicate Underived(db: Db) {
    forall p | p in db.details.derivation :: p.child != p.parent
  }

  // ----------------------------------------------- who records a derivation

  ghost predicate NoSelfParents(sts: seq<Statement>) {
    forall i | 0 <= i < |sts| :: sts[i].OnDetails? && sts[i].detail.InsertDerivation? ==> sts[i].detail.child != sts[i].detail.parent
  }

  lemma {:induction false} DetailUnderived(db: Db, d: DetailStatement)
    requires Underived(db) && WriteDetail(db, d).Wrote? && (d.InsertDerivation? ==> d.child != d.parent)
    ensures forall p | p in WriteDetail(db, d).table.derivation :: p.child != p.parent
  {
  }

  lemma {:induction false} StaysUnderived(db: Db, sts: seq<Statement>)
    requires Underived(db) && NoSelfParents(sts) && ExecAll(db, sts).Ran?
    ensures Underived(ExecAll(db, sts).db)
    decreases |sts|
  {
    if sts != [] {
      if sts[0].OnDetails? {
        DetailUnderived(db, sts[0].detail);
      }
      assert forall i | 0 <= i < |sts[1..]| :: sts[1..][i] == sts[i + 1];
      StaysUnderived(Exec(db, sts[0]).db, sts[1..]);
    }
  }

  lemma {:induction false} DerivationsNoSelf(child: MemoryId, parents: seq<MemoryId>)
    requires child !in parents
    ensures NoSelfParents(StoreStaging.Derivations(child, parents))
    decreases |parents|
  {
    if parents != [] {
      DerivationsNoSelf(child, parents[1..]);
    }
  }

  lemma {:induction false} InsertNoSelf(observed: Db, c: StoreStaging.Candidate, key: Option<KeyId>)
    requires c.id !in c.content.parents
    ensures NoSelfParents(StoreStaging.InsertStatements(observed, c, key))
  {
    DerivationsNoSelf(c.id, c.content.parents);
  }

  lemma {:induction false} DetachedNoSelf(db: Db, sts: seq<Statement>)
    requires StoreOperations.AllSteady(db, sts, {})
    ensures NoSelfParents(sts)
  {
    forall i | 0 <= i < |sts| ensures !(sts[i].OnDetails? && sts[i].detail.InsertDerivation?) {
      assert StoreOperations.Steady(db, sts[i], {});
    }
  }

  lemma {:induction false} MergeNoSelf(observed: Db, id: MemoryId, expected: Record, c: StoreStaging.Candidate, key: Option<KeyId>)
    ensures NoSelfParents(StoreStaging.MergeStatements(observed, id, expected, c, key))
  {
  }

  lemma {:induction false} LifeNoSelf(h: seq<World>, db: Db, r: LifeRequest)
    requires Past(h, db) && LifeStaged(h, r).Some? && Wholesome(Life(r))
    ensures NoSelfParents(LifeStaged(h, r).value)
  {
    if r.Capture? {
      match StoreStaging.Holder(h[r.holder].db, StoreStaging.FingerprintOf(r.candidate.kind, r.candidate.content))
      case None => InsertNoSelf(h[r.observed].db, r.candidate, r.key);
      case Some(id) => MergeNoSelf(h[r.observed].db, id, h[r.found].db.memory[id].record, r.candidate, r.key);
    } else {
      LifeSteady(h, db, r);
      DetachedNoSelf(db, LifeStaged(h, r).value);
    }
  }

  lemma {:induction false} ReembedNoSelf(ids: seq<MemoryId>, revision: Revision, modelId: string)
    ensures NoSelfParents(StoreStaging.ReembedStatements(ids, revision, modelId))
    decreases |ids|
  {
    if ids != [] {
      ReembedNoSelf(ids[1..], revision, modelId);
    }
  }

  lemma {:induction false} PiecesNoSelf(id: MemoryId, revision: Revision, ordinal: nat, count: nat)
    ensures NoSelfParents(StoreStaging.PieceStatements(id, revision, ordinal, count))
    decreases count
  {
    if count > 0 {
      PiecesNoSelf(id, revision, ordinal + 1, count - 1);
    }
  }

  lemma {:induction false} PipelineNoSelf(h: seq<World>, r: PipelineRequest)
    requires PipelineStaged(h, r).Some?
    ensures NoSelfParents(PipelineStaged(h, r).value)
  {
    match r
    case Embedding(work, identity, pieces) => PiecesNoSelf(work.memory, work.revision, 0, pieces);
    case Reembedding(missing, revision, modelId, after, limit) =>
      ReembedNoSelf(Selected(h[missing].db, revision, after, limit), revision, modelId);
    case _ =>
  }

  // ---------------------------------------------------------- one request

  /** The counter statements of a request are not clamped where it runs. */
  ghost predicate Unclipped(h: seq<World>, w: World, r: Request) {
    match r
    case Life(life) => LifeStaged(h, life).Some? ==> NeverClamps(w.db, LifeStaged(h, life).value)
    case Pipeline(pipeline) => PipelineStaged(h, pipeline).Some? ==> NeverClamps(w.db, PipelineStaged(h, pipeline).value)
    case Erasure(_) => Effect(h, w, r).Some? ==> NeverClamps(w.db, Batched(h, w, r))
  }

  lemma {:induction false} ErasingBalances(h: seq<World>, w: World, e: ErasureRequest, next: World)
    requires e.Erasing? && ErasureEffect(h, w, e) == Some(next) && !Doubles(h, Erasure(e))
    ensures StoreBalance.KeepsBalance(w.db, Batched(h, w, Erasure(e)))
  {
    ShellsDouble(h, w, e);
    StoreErasing.PlansProper(e.target, ShellsRead(h, e), e.cascade, e.at);
    StoreBalance.BatchKeepsBalance(w.db, StoreErasing.ErasePlan(e.target, ShellsRead(h, e), e.cascade, e.at));
  }

  lemma {:induction false} DrainingBalances(h: seq<World>, w: World, e: ErasureRequest, next: World)
    requires e.Draining? && ErasureEffect(h, w, e) == Some(next)
    ensures StoreBalance.KeepsBalance(w.db, Batched(h, w, Erasure(e)))
  {
    var shells := StoreWorld.DrainShells(h[e.batchRead].db, e.batch);
    DrainShellsRead(h[e.batchRead].db, e.batch);
    StoreErasing.PlansProper(0, shells, false, e.time);
    StoreBalance.BatchKeepsBalance(w.db, StoreErasing.DrainPlan(shells, e.time));
  }

  lemma {:induction false} EffectBalances(h: seq<World>, w: World, r: Request, next: World)
    requires Past(h, w.db) && StoreOperations.Good(w.db) && Effect(h, w, r) == Some(next) && !Doubles(h, r)
    ensures StoreBalance.KeepsBalance(w.db, Batched(h, w, r))
  {
    match r
    case Life(life) => LifeBalances(h, w.db, life);
    case Pipeline(pipeline) => PipelineBalances(h, w.db, pipeline);
    case Erasure(e) =>
      if e.Erasing? {
        ErasingBalances(h, w, e, next);
      } else if e.Draining? {
        DrainingBalances(h, w, e, next);
      } else {
        StoreBalance.LevelKeepsBalance(w.db, []);
      }
  }

  lemma {:induction false} FirstBalances(h: seq<World>, w: World, rs: seq<Request>, next: World) returns (mid: World)
    requires History(h, w) && Fit(w) && rs != [] && Effects(h, w, rs) == Some(next)
    requires Balanced(w.db) && !SomeDoubles(h, rs)
    ensures History(h, mid) && Fit(mid) && Effect(h, w, rs[0]) == Some(mid) && Effects(h, mid, rs[1..]) == Some(next)
    ensures Balanced(mid.db) && Unclipped(h, w, rs[0]) && !SomeDoubles(h, rs[1..])
  {
    mid := EffectsFirst(h, w, rs, next);
    assert !Doubles(h, rs[0]);
    LaterDoubles(h, rs);
    HistoryIsPast(h, w);
    EffectBalances(h, w, rs[0], mid);
    EffectRuns(h, w, rs[0], mid);
    EffectKeeps(h, w, rs[0], mid);
    HistoryFollows(h, w, mid);
  }

  lemma {:induction false} EffectsBalance(h: seq<World>, w: World, rs: seq<Request>, next: World)
    requires History(h, w) && Fit(w) && Effects(h, w, rs) == Some(next)
    requires Balanced(w.db) && !SomeDoubles(h, rs)
    ensures Balanced(next.db)
    decreases |rs|
  {
    if rs != [] {
      var mid := FirstBalances(h, w, rs, next);
      EffectsBalance(h, mid, rs[1..], next);
    }
  }

  // ------------------------------------------------------------------ runs

  lemma {:induction false} GenesisBalanced()
    ensures Balanced(GENESIS.db)
  {
    forall b: Bucket ensures Count(EMPTY, b) == |RowsIn(EMPTY.memory, b)| {
      assert RowsIn(EMPTY.memory, b) == {};
    }
  }

  /** An erasure committed before state `j` named its own target twice. */
  ghost predicate DoubledBefore(run: Run, j: nat)
    requires j <= |run.worlds|
  {
    exists k: nat, n: nat, r: Request {:trigger CommittedAt(run, k, n, r)} ::
      k < j && CommittedAt(run, k, n, r) && Doubles(run.worlds[..k + 1], r)
  }

  lemma {:induction false} DoubledStep(run: Run, j: nat)
    requires 0 < j <= |run.worlds| && j <= |run.events|
    ensures DoubledBefore(run, j)
       <==> DoubledBefore(run, j - 1) || (run.events[j - 1].Commit? && SomeDoubles(run.worlds[..j], run.events[j - 1].requests))
  {
    if DoubledBefore(run, j) && !DoubledBefore(run, j - 1) {
      var k: nat, n: nat, r: Request :| k < j && CommittedAt(run, k, n, r) && Doubles(run.worlds[..k + 1], r);
      assert k == j - 1;
    }
    if run.events[j - 1].Commit? && SomeDoubles(run.worlds[..j], run.events[j - 1].requests) {
      var n :| 0 <= n < |run.events[j - 1].requests| && Doubles(run.worlds[..j], run.events[j - 1].requests[n]);
      assert CommittedAt(run, j - 1, n, run.events[j - 1].requests[n]);
    }
  }

  lemma {:induction false} StepBalances(h: seq<World>, last: World, e: Event, w: World)
    requires h != [] && last == h[|h| - 1] && Fit(last) && History(h, last) && Next(h, e, w) && Balanced(last.db)
    requires e.Commit? ==> !SomeDoubles(h, e.requests)
    ensures Balanced(w.db)
  {
    if e.Commit? {
      EffectsBalance(h, last, e.requests, w);
    }
  }

  lemma {:induction false} BalancesOn(run: Run, j: nat, last: World, w: World)
    requires IsRun(run) && 0 < j < |run.worlds| && last == run.worlds[j - 1] && w == run.worlds[j] && Balanced(last.db)
    requires run.events[j - 1].Commit? ==> !SomeDoubles(run.worlds[..j], run.events[j - 1].requests)
    ensures Balanced(w.db)
  {
    StepWithin(run, j, run.worlds[..j], last, run.events[j - 1], w);
    StepBalances(run.worlds[..j], last, run.events[j - 1], w);
  }

  lemma {:induction false} BalancedUnlessDoubled(run: Run, j: nat)
    requires IsRun(run) && j < |run.worlds| && !DoubledBefore(run, j)
    ensures Balanced(run.worlds[j].db)
    decreases j
  {
    if j == 0 {
      GenesisBalanced();
    } else {
      DoubledStep(run, j);
      BalancedUnlessDoubled(run, j - 1);
      BalancesOn(run, j, run.worlds[j - 1], run.worlds[j]);
    }
  }

  lemma {:induction false} StepDrifts(h: seq<World>, last: World, e: Event, w: World, kind: Kind)
    requires h != [] && last == h[|h| - 1] && Fit(last) && History(h, last) && Next(h, e, w)
    ensures Drift(w.db, kind) >= Drift(last.db, kind)
  {
    if e.Commit? {
      EffectsDrift(h, last, e.requests, w, kind);
    }
  }

  lemma {:induction false} DriftsOn(run: Run, j: nat, last: World, w: World, kind: Kind)
    requires IsRun(run) && 0 < j < |run.worlds| && last == run.worlds[j - 1] && w == run.worlds[j]
    ensures Drift(w.db, kind) >= Drift(last.db, kind)
  {
    StepWithin(run, j, run.worlds[..j], last, run.events[j - 1], w);
    StepDrifts(run.worlds[..j], last, run.events[j - 1], w, kind);
  }

  /** No later commit brings the counter of erased memories nearer to its rows. */
  lemma {:induction false} DriftLasts(run: Run, i: nat, j: nat, kind: Kind)
    requires IsRun(run) && i <= j < |run.worlds|
    ensures Drift(run.worlds[j].db, kind) >= Drift(run.worlds[i].db, kind)
    decreases j
  {
    if i < j {
      DriftLasts(run, i, j - 1, kind);
      DriftsOn(run, j, run.worlds[j - 1], run.worlds[j], kind);
    }
  }

  lemma {:induction false} DriftIsImbalance(db: Db, kind: Kind)
    requires Balanced(db)
    ensures Drift(db, kind) == 0
  {
    assert Count(db, Bucket(kind, Erased)) == |RowsIn(db.memory, Bucket(kind, Erased))|;
  }

  lemma {:induction false} DoubledDrifts(run: Run, j: nat) returns (kind: Kind)
    requires IsRun(run) && j < |run.worlds| && DoubledBefore(run, j)
    ensures Drift(run.worlds[j].db, kind) > 0
  {
    var k: nat, n: nat, r: Request :| k < j && CommittedAt(run, k, n, r) && Doubles(run.worlds[..k + 1], r);
    var h, rs := run.worlds[..k + 1], run.events[k].requests;
    StepWithin(run, k + 1, h, run.worlds[k], run.events[k], run.worlds[k + 1]);
    assert SomeDoubles(h, rs);
    kind := EffectsDouble(h, run.worlds[k], rs, run.worlds[k + 1]);
    GenesisBalanced();
    DriftIsImbalance(GENESIS.db, kind);
    DriftLasts(run, 0, k, kind);
    DriftLasts(run, k + 1, j, kind);
  }

  /** In a state of a run every counter is the number of rows with its kind and status if
      and only if no erasure committed before it named its own target twice. */
  lemma {:induction false} CountersAgreeIff(run: Run, j: nat)
    requires IsRun(run) && j < |run.worlds|
    ensures (forall b: Bucket :: Count(run.worlds[j].db, b) == |RowsIn(run.worlds[j].db.memory, b)|) <==> !DoubledBefore(run, j)
  {
    if DoubledBefore(run, j) {
      var kind := DoubledDrifts(run, j);
      assert Count(run.worlds[j].db, Bucket(kind, Erased)) != |RowsIn(run.worlds[j].db.memory, Bucket(kind, Erased))|;
    } else {
      BalancedUnlessDoubled(run, j);
    }
  }

  // ----------------------------------------- runs without self-derivations

  lemma {:induction false} ShrinkNoSelf(sts: seq<Statement>)
    requires StoreResidue.AllShrink(sts)
    ensures NoSelfParents(sts)
  {
    forall i | 0 <= i < |sts| ensures !(sts[i].OnDetails? && sts[i].detail.InsertDerivation?) {
      assert StoreResidue.Shrinks(sts[i]);
    }
  }

  lemma {:induction false} BatchedNoSelf(h: seq<World>, w: World, r: Request)
    requires Past(h, w.db) && Effect(h, w, r).Some? && Wholesome(r)
    ensures NoSelfParents(Batched(h, w, r))
  {
    match r
    case Life(life) => LifeNoSelf(h, w.db, life);
    case Pipeline(pipeline) => PipelineNoSelf(h, pipeline);
    case Erasure(e) =>
      ErasureShrinks(h, w, e);
      ShrinkNoSelf(Batched(h, w, r));
  }

  lemma {:induction false} EffectUnderived(h: seq<World>, w: World, r: Request, next: World)
    requires Past(h, w.db) && Effect(h, w, r) == Some(next) && Wholesome(r) && Underived(w.db)
    ensures Underived(next.db)
  {
    EffectRuns(h, w, r, next);
    BatchedNoSelf(h, w, r);
    StaysUnderived(w.db, Batched(h, w, r));
  }

  lemma {:induction false} EffectsUnderived(h: seq<World>, w: World, rs: seq<Request>, next: World)
    requires History(h, w) && Fit(w) && Effects(h, w, rs) == Some(next) && AllWholesome(rs) && Underived(w.db)
    ensures Underived(next.db)
    decreases |rs|
  {
    if rs != [] {
      var mid := FirstUnderived(h, w, rs, next);
      EffectsUnderived(h, mid, rs[1..], next);
    }
  }

  lemma {:induction false} FirstUnderived(h: seq<World>, w: World, rs: seq<Request>, next: World) returns (mid: World)
    requires History(h, w) && Fit(w) && rs != [] && Effects(h, w, rs) == Some(next) && AllWholesome(rs) && Underived(w.db)
    ensures History(h, mid) && Fit(mid) && Effects(h, mid, rs[1..]) == Some(next) && Underived(mid.db) && AllWholesome(rs[1..])
  {
    mid := EffectsFirst(h, w, rs, next);
    assert Wholesome(rs[0]);
    assert forall k | 0 <= k < |rs[1..]| :: rs[1..][k] == rs[k + 1];
    HistoryIsPast(h, w);
    EffectUnderived(h, w, rs[0], mid);
    EffectKeeps(h, w, rs[0], mid);
    HistoryFollows(h, w, mid);
  }

  lemma {:induction false} StepUnderived(h: seq<World>, last: World, e: Event, w: World)
    requires h != [] && last == h[|h| - 1] && Fit(last) && History(h, last) && Next(h, e, w) && Underived(last.db)
    requires e.Commit? ==> AllWholesome(e.requests)
    ensures Underived(w.db)
  {
    if e.Commit? {
      EffectsUnderived(h, last, e.requests, w);
    }
  }

  lemma {:induction false} UnderivedOn(run: Run, n: nat, last: World, w: World)
    requires IsRun(run) && WholesomeRun(run) && 0 < n < |run.worlds| && last == run.worlds[n - 1] && w == run.worlds[n]
    requires Underived(last.db)
    ensures Underived(w.db)
  {
    StepWithin(run, n, run.worlds[..n], last, run.events[n - 1], w);
    StepUnderived(run.worlds[..n], last, run.events[n - 1], w);
  }

  lemma {:induction false} RunUnderived(run: Run, n: nat)
    requires IsRun(run) && WholesomeRun(run) && n < |run.worlds|
    ensures Underived(run.worlds[n].db)
    decreases n
  {
    if n > 0 {
      RunUnderived(run, n - 1);
      UnderivedOn(run, n, run.worlds[n - 1], run.worlds[n]);
    }
  }

  ghost predicate UnderivedSince(h: seq<World>) {
    forall i | 0 <= i < |h| :: Underived(h[i].db)
  }

  lemma {:induction false} DoublesDerives(h: seq<World>, w: World, r: Request)
    requires Effect(h, w, r).Some?
    ensures Doubles(h, r) ==> !UnderivedSince(h)
  {
    if Doubles(h, r) {
      var e := r.erasure;
      var i: nat :| Relists(h, e, i);
      assert e.ids[i] in e.ids;
      assert Parentage(e.target, e.target) in h[e.derived].db.details.derivation;
      assert !Underived(h[e.derived].db);
    }
  }

  lemma {:induction false} EffectsDerive(h: seq<World>, w: World, rs: seq<Request>, next: World)
    requires Effects(h, w, rs) == Some(next)
    ensures SomeDoubles(h, rs) ==> !UnderivedSince(h)
    decreases |rs|
  {
    if rs != [] {
      var mid := EffectsFirst(h, w, rs, next);
      DoublesDerives(h, w, rs[0]);
      EffectsDerive(h, mid, rs[1..], next);
      if !Doubles(h, rs[0]) {
        LaterDoubles(h, rs);
      }
    }
  }

  lemma {:induction false} NextDerives(h: seq<World>, e: Event, w: World)
    requires h != [] && Next(h, e, w)
    ensures e.Commit? && SomeDoubles(h, e.requests) ==> !UnderivedSince(h)
  {
    if e.Commit? {
      EffectsDerive(h, h[|h| - 1], e.requests, w);
    }
  }

  /** Where no capture derives a memory from itself, no erasure names its target twice. */
  lemma {:induction false} WholesomeNeverDoubles(run: Run, j: nat)
    requires IsRun(run) && WholesomeRun(run) && j < |run.worlds|
    ensures !DoubledBefore(run, j)
    decreases j
  {
    if j > 0 {
      WholesomeNeverDoubles(run, j - 1);
      DoubledStep(run, j);
      forall i | 0 <= i < j ensures Underived(run.worlds[..j][i].db) {
        RunUnderived(run, i);
      }
      Cut(run, j);
      NextDerives(run.worlds[..j], run.events[j - 1], run.worlds[j]);
    }
  }

  /** In every state of a run in which no capture derives a memory from itself, every
      counter is the number of rows with its kind and status. */
  lemma {:induction false} CountersAgree(run: Run, i: nat, b: Bucket)
    requires IsRun(run) && WholesomeRun(run) && i < |run.worlds|
    ensures Count(run.worlds[i].db, b) == |RowsIn(run.worlds[i].db.memory, b)|
  {
    WholesomeNeverDoubles(run, i);
    BalancedUnlessDoubled(run, i);
  }

  // ------------------------------------------------------------- no clamp

  /** Until an erasure names its target twice, no counter statement of any committed request
      is clamped where it runs: `k` counts the requests before it in its transaction. */
  lemma {:induction false} ClampNeverFires(run: Run, i: nat, k: nat)
    requires IsRun(run) && i < |run.events| && run.events[i].Commit? && !DoubledBefore(run, i + 1)
    requires k < |run.events[i].requests|
    ensures UnclippedAt(run.worlds[..i + 1], run.worlds[i], run.events[i].requests, k)
  {
    BalancedBefore(run, i, run.worlds[i]);
    CommitRuns(run, i, run.worlds[..i + 1], run.worlds[i], run.events[i].requests, run.worlds[i + 1]);
    AllUnclipped(run.worlds[..i + 1], run.worlds[i], run.events[i].requests, k, run.worlds[i + 1]);
  }

  /** The first `k` requests of a transaction run, and the next is not clamped after them. */
  ghost predicate UnclippedAt(h: seq<World>, now: World, rs: seq<Request>, k: nat)
    requires k < |rs|
  {
    var w := Effects(h, now, rs[..k]);
    w.Some? && Unclipped(h, w.value, rs[k])
  }

  lemma {:induction false} AllUnclipped(h: seq<World>, w: World, rs: seq<Request>, k: nat, next: World)
    requires History(h, w) && Fit(w) && Effects(h, w, rs) == Some(next) && k < |rs|
    requires Balanced(w.db) && !SomeDoubles(h, rs)
    ensures UnclippedAt(h, w, rs, k)
  {
    PrefixUnclipped(h, w, rs, k, next);
  }

  lemma {:induction false} BalancedBefore(run: Run, i: nat, now: World)
    requires IsRun(run) && i < |run.events| && run.events[i].Commit? && !DoubledBefore(run, i + 1) && now == run.worlds[i]
    ensures Balanced(now.db) && !SomeDoubles(run.worlds[..i + 1], run.events[i].requests)
  {
    DoubledStep(run, i + 1);
    BalancedUnlessDoubled(run, i);
  }

  lemma {:induction false} CommitRuns(run: Run, i: nat, h: seq<World>, last: World, rs: seq<Request>, w: World)
    requires IsRun(run) && i < |run.events| && run.events[i] == Commit(rs)
    requires h == run.worlds[..i + 1] && last == run.worlds[i] && w == run.worlds[i + 1]
    ensures Fit(last) && History(h, last) && Effects(h, last, rs) == Some(w)
  {
    StepWithin(run, i + 1, h, last, run.events[i], w);
  }

  lemma {:induction false} EffectsSplit(h: seq<World>, w: World, rs: seq<Request>, k: nat)
    requires rs != [] && k <= |rs| - 1 && Effect(h, w, rs[0]).Some?
    ensures Effects(h, w, rs) == Effects(h, Effect(h, w, rs[0]).value, rs[1..])
    ensures Effects(h, w, rs[..k + 1]) == Effects(h, Effect(h, w, rs[0]).value, rs[1..][..k])
    ensures Effects(h, w, rs[..0]) == Some(w)
  {
    assert rs[..k + 1][1..] == rs[1..][..k];
  }

  lemma {:induction false} LaterUnclipped(h: seq<World>, w: World, rs: seq<Request>, k: nat, mid: World, x: Option<World>)
    requires 0 < k < |rs| && Effect(h, w, rs[0]) == Some(mid) && x == Effects(h, mid, rs[1..][..k - 1])
    requires x.Some? && Unclipped(h, x.value, rs[1..][k - 1])
    ensures Effects(h, w, rs[..k]) == x && Unclipped(h, x.value, rs[k])
  {
    EffectsSplit(h, w, rs, k - 1);
  }

  lemma {:induction false} NoneBefore(h: seq<World>, w: World, rs: seq<Request>)
    ensures Effects(h, w, rs[..0]) == Some(w)
  {
    assert rs[..0] == [];
  }

  lemma {:induction false} PrefixUnclipped(h: seq<World>, w: World, rs: seq<Request>, k: nat, next: World)
    requires History(h, w) && Fit(w) && Effects(h, w, rs) == Some(next) && k < |rs|
    requires Balanced(w.db) && !SomeDoubles(h, rs)
    ensures Effects(h, w, rs[..k]).Some? && Unclipped(h, Effects(h, w, rs[..k]).value, rs[k])
    decreases k
  {
    var mid := FirstBalances(h, w, rs, next);
    if k == 0 {
      NoneBefore(h, w, rs);
    } else {
      PrefixUnclipped(h, mid, rs[1..], k - 1, next);
      LaterUnclipped(h, w, rs, k, mid, Effects(h, mid, rs[1..][..k - 1]));
    }
  }
}
