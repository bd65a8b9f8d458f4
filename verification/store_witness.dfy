/** Runs in which what is false of the store happens. */
module StoreWitness {

  import opened Succession
  import opened Wrappers
  import opened StoreTables
  import opened StoreStaging
  import opened StoreWorld
  import opened StoreRequests
  import opened StoreRuns
  import opened StoreTheorems
  import Ordered
  import StoreEmbedding
  import StoreSteps
  import StoreScope
  import StoreDrift
  import StoreAgreement
  import StoreDeadlines
  import StoreCompletion
  import StoreInvariants
  import StoreCounters
  import StoreAccounting
  import StoreErasing

  // ------------------------------------------------------- growing a run

  const START := Run([GENESIS], [])

  function Grown(run: Run, e: Event, w: World): Run {
    Run(run.worlds + [w], run.events + [e])
  }

  lemma {:induction false} Grows(run: Run, e: Event, w: World)
    requires IsRun(run) && Next(run.worlds, e, w)
    ensures IsRun(Grown(run, e, w))
  {
    var more := Grown(run, e, w);
    forall i: nat {:trigger StepAt(more, i)} | i < |more.events| ensures StepAt(more, i) {
      if i < |run.events| {
        assert StepAt(run, i);
        assert more.worlds[..i + 1] == run.worlds[..i + 1];
      } else {
        assert more.worlds[..i + 1] == run.worlds;
      }
    }
  }

  lemma {:induction false} Alone(h: seq<World>, now: World, r: Request, w: World)
    requires h != [] && now == h[|h| - 1] && Effect(h, now, r) == Some(w)
    ensures Next(h, Commit([r]), w)
  {
    assert [r][1..] == [];
    assert Effects(h, now, [r]) == Effects(h, w, []);
  }

  lemma {:induction false} GrowsAlone(run: Run, now: World, r: Request, w: World) returns (more: Run)
    requires IsRun(run) && now == run.worlds[|run.worlds| - 1] && Effect(run.worlds, now, r) == Some(w)
    ensures IsRun(more) && more == Grown(run, Commit([r]), w)
  {
    Alone(run.worlds, now, r, w);
    Grows(run, Commit([r]), w);
    more := Grown(run, Commit([r]), w);
  }

  /** A request of its own commit that stages `sts`. */
  lemma {:induction false} GrowsBy(run: Run, now: World, r: Request, sts: seq<Statement>, db: Db)
    requires IsRun(run) && now == run.worlds[|run.worlds| - 1]
    requires match r
             case Life(life) => LifeStaged(run.worlds, life) == Some(sts)
             case Pipeline(pipeline) => PipelineStaged(run.worlds, pipeline) == Some(sts)
             case Erasure(_) => false
    requires ExecAll(now.db, sts).Ran? && ExecAll(now.db, sts).db == db
    ensures IsRun(Grown(run, Commit([r]), now.(db := db)))
  {
    var w := now.(db := db);
    Alone(run.worlds, now, r, w);
    Grows(run, Commit([r]), w);
  }

  lemma {:induction false} RunsOn(db: Db, st: Statement, next: Db, rest: seq<Statement>)
    requires Exec(db, st).Ran? && Exec(db, st).db == next
    ensures ExecAll(db, [st] + rest) == ExecAll(next, rest)
  {
    assert ([st] + rest)[1..] == rest;
  }

  // --------------------------------------------------------------- captures

  /** A fact someone states. */
  function Said(id: MemoryId, text: string, quarantined: bool, parents: seq<MemoryId>): Candidate {
    Candidate(id, Fact, quarantined, Content(text, None, [], parents), |text|, 0)
  }

  /** The tables after a capture that inserted its row, as far as they matter here. */
  ghost predicate Arrived(db: Db, c: Candidate, end: Db) {
    && end.memory == db.memory[c.id := RowOf(c)] && end.models == db.models
    && end.details.provenance == db.details.provenance + {c.id}
    && end.details.derivation == db.details.derivation + (set p | p in c.content.parents :: Parentage(c.id, p))
    && end.details.vectors == db.details.vectors
    && end.details.work.Keys == db.details.work.Keys
         + (set r | r in ActiveRevisions(db) :: WorkKey(c.id, r, db.models[r].identity.modelId))
  }

  lemma {:induction false} DerivationsArrive(db: Db, child: MemoryId, parents: seq<MemoryId>)
    requires child in db.memory && |parents| <= 1 && forall p | p in parents :: Parentage(child, p) !in db.details.derivation
    ensures var end := ExecAll(db, Derivations(child, parents));
            end.Ran? && end.db == db.(details := db.details.(
              derivation := db.details.derivation + set p | p in parents :: Parentage(child, p)))
  {
    if parents == [] {
      assert (set p | p in parents :: Parentage(child, p)) == {};
      assert db.details.derivation + {} == db.details.derivation;
    } else {
      var st := OnDetails(InsertDerivation(child, parents[0]));
      assert parents == [parents[0]] && parents[1..] == [];
      assert (set p | p in parents :: Parentage(child, p)) == {Parentage(child, parents[0])};
      RunsOn(db, st, Exec(db, st).db, []);
      assert Derivations(child, parents) == [st] + [];
    }
  }

  lemma {:induction false} WorkArrives(db: Db, id: MemoryId)
    requires forall r | r in ActiveRevisions(db) :: Observe(db) == Some(r)
    ensures var end := ExecAll(db, EmbeddingStatements(db, id));
            && end.Ran? && end.db == db.(details := db.details.(work := end.db.details.work))
            && end.db.details.work.Keys == db.details.work.Keys
                 + set r | r in ActiveRevisions(db) :: WorkKey(id, r, db.models[r].identity.modelId)
  {
    match Observe(db)
    case None =>
      assert ActiveRevisions(db) == {};
      RunsOn(db, Guard(NoModel), db, []);
      assert [Guard(NoModel)] + [] == EmbeddingStatements(db, id);
    case Some(rev) =>
      assert ActiveRevisions(db) == {rev};
      var key := WorkKey(id, rev, db.models[rev].identity.modelId);
      var guard, stage := Guard(ModelActive(rev, key.modelId)), OnDetails(StageWork(key));
      assert EmbeddingStatements(db, id) == [guard] + ([stage] + []);
      RunsOn(db, guard, db, [stage] + []);
      RunsOn(db, stage, Exec(db, stage).db, []);
      assert (set r | r in ActiveRevisions(db) :: WorkKey(id, r, db.models[r].identity.modelId)) == {key};
  }

  ghost predicate Fresh(db: Db, c: Candidate) {
    && c.id !in db.memory && c.id !in db.details.provenance && !Clashes(db, c.id, FingerprintOf(c.kind, c.content))
    && |c.content.parents| <= 1 && (forall p | p in c.content.parents :: Parentage(c.id, p) !in db.details.derivation)
    && (forall r | r in ActiveRevisions(db) :: Observe(db) == Some(r))
  }

  lemma {:induction false} RowsArrive(db: Db, c: Candidate, rest: seq<Statement>) returns (mid: Db)
    requires Fresh(db, c)
    ensures mid == db.(memory := db.memory[c.id := RowOf(c)], details := db.details.(
              provenance := db.details.provenance + {c.id},
              derivation := db.details.derivation + set p | p in c.content.parents :: Parentage(c.id, p)))
    ensures ExecAll(db, [OnRows(InsertMemory(c.id, RowOf(c)))] + ([OnDetails(InsertProvenance(c.id))] + (Derivations(c.id, c.content.parents) + rest)))
         == ExecAll(mid, rest)
  {
    var row, prov := OnRows(InsertMemory(c.id, RowOf(c))), OnDetails(InsertProvenance(c.id));
    var derivs := Derivations(c.id, c.content.parents);
    RunsOn(db, row, Exec(db, row).db, [prov] + (derivs + rest));
    var a := Exec(db, row).db;
    RunsOn(a, prov, Exec(a, prov).db, derivs + rest);
    var b := Exec(a, prov).db;
    DerivationsArrive(b, c.id, c.content.parents);
    StoreInvariants.ExecAllAppend(b, derivs, rest);
    mid := ExecAll(b, derivs).db;
  }

  /** A capture of something new, read on the state it commits on, goes in. */
  lemma {:induction false} InsertArrives(db: Db, c: Candidate)
    requires Fresh(db, c)
    ensures ExecAll(db, InsertStatements(db, c, None)).Ran? && Arrived(db, c, ExecAll(db, InsertStatements(db, c, None)).db)
  {
    var unit, source := OnCounters(Adjust(Bucket(c.kind, StateOf(c)), 1)), OnDetails(AppendSource(c.id));
    var work := EmbeddingStatements(db, c.id);
    var rest := [unit] + (work + ([source] + []));
    assert InsertStatements(db, c, None)
        == [OnRows(InsertMemory(c.id, RowOf(c)))] + ([OnDetails(InsertProvenance(c.id))] + (Derivations(c.id, c.content.parents) + rest));
    var a := RowsArrive(db, c, rest);
    var b := Exec(a, unit).db;
    RunsOn(a, unit, b, work + ([source] + []));
    assert ActiveRevisions(b) == ActiveRevisions(db);
    assert EmbeddingStatements(b, c.id) == work;
    WorkArrives(b, c.id);
    StoreInvariants.ExecAllAppend(b, work, [source] + []);
    var d := ExecAll(b, work).db;
    RunsOn(d, source, Exec(d, source).db, []);
  }

  lemma {:induction false} CaptureStages(db: Db, c: Candidate)
    requires !Clashes(db, c.id, FingerprintOf(c.kind, c.content)) && c.id !in db.memory
    ensures CaptureStatements(db, db, db, c, None, c.bodyBytes) == Some(InsertStatements(db, c, None))
  {
    var mark := FingerprintOf(c.kind, c.content);
    var rows := set m | m in db.memory && db.memory[m].state != Erased && db.memory[m].fingerprint == mark;
    assert rows == {};
  }

  /** A capture in a commit of its own, read on the last state of the run. */
  lemma {:induction false} Captures(run: Run, now: World, c: Candidate) returns (more: Run, w: World)
    requires IsRun(run) && now == run.worlds[|run.worlds| - 1] && Fresh(now.db, c)
    ensures var at := |run.worlds| - 1;
            IsRun(more) && more == Grown(run, Commit([Life(Capture(at, at, at, c, None, c.bodyBytes))]), w)
    ensures Arrived(now.db, c, w.db) && w == now.(db := w.db)
  {
    var at := |run.worlds| - 1;
    var r := Capture(at, at, at, c, None, c.bodyBytes);
    CaptureStages(now.db, c);
    InsertArrives(now.db, c);
    w := now.(db := ExecAll(now.db, InsertStatements(now.db, c, None)).db);
    GrowsBy(run, now, Life(r), InsertStatements(now.db, c, None), w.db);
    more := Grown(run, Commit([Life(r)]), w);
  }

  // ------------------------------------------- a memory derived from itself

  const SELF := Said(1, "tea", false, [1])

  const CASCADE := Erasing(1, 1, true, 1, [1], [1], 9)

  lemma {:induction false} GenesisFresh(c: Candidate)
    requires |c.content.parents| <= 1
    ensures Fresh(GENESIS.db, c)
  {
    assert ActiveRevisions(EMPTY) == {};
  }

  lemma {:induction false} CascadeStages(h: seq<World>, w: World)
    requires |h| == 2 && h[1] == w && Arrived(EMPTY, SELF, w.db)
    ensures Stageable(h, w, CASCADE) && Present(w.db, 1)
  {
    assert w.db.details.derivation == {Parentage(1, 1)};
    assert DerivedOf(w.db, 1) == {1};
  }

  lemma {:induction false} CascadeCommits(h: seq<World>, w: World) returns (next: World)
    requires |h| == 2 && h[1] == w && w == GENESIS.(db := w.db) && Arrived(EMPTY, SELF, w.db)
    ensures Next(h, Commit([Erasure(CASCADE)]), next)
  {
    CascadeStages(h, w);
    StoreScope.EraseCommitsIff(Running(w.db, w.audit, 0), 1, ShellsRead(h, CASCADE), true, 9);
    next := ErasureEffect(h, w, CASCADE).value;
    Alone(h, w, Erasure(CASCADE), next);
  }

  lemma {:induction false} CascadeDoubles(run: Run, w: World)
    requires |run.worlds| == 3 && run.worlds[1] == w && |run.events| == 2 && run.events[1] == Commit([Erasure(CASCADE)])
    requires Present(w.db, 1)
    ensures StoreAgreement.DoubledBefore(run, 2)
  {
    assert StoreSteps.CommittedAt(run, 1, 0, Erasure(CASCADE));
    assert StoreDrift.Relists(run.worlds[..2], CASCADE, 0);
  }

  lemma {:induction false} Miscounts(run: Run, j: nat) returns (b: Bucket)
    requires IsRun(run) && j < |run.worlds| && StoreAgreement.DoubledBefore(run, j)
    ensures Count(run.worlds[j].db, b) != |StoreCounters.RowsIn(run.worlds[j].db.memory, b)|
  {
    StoreAgreement.CountersAgreeIff(run, j);
    b :| Count(run.worlds[j].db, b) != |StoreCounters.RowsIn(run.worlds[j].db.memory, b)|;
  }

  /** A capture may name itself as a parent; a cascade over such a memory commits, and some
      counter is not the number of its rows any more. */
  lemma {:induction false} SelfDerivationMiscounts() returns (run: Run, b: Bucket)
    ensures IsRun(run) && run.events == [Commit([Life(Capture(0, 0, 0, SELF, None, 3))]), Commit([Erasure(CASCADE)])]
    ensures Count(run.worlds[2].db, b) != |StoreCounters.RowsIn(run.worlds[2].db.memory, b)|
  {
    GenesisFresh(SELF);
    var one, w := Captures(START, GENESIS, SELF);
    var next := CascadeCommits(one.worlds, w);
    Grows(one, Commit([Erasure(CASCADE)]), next);
    run := Grown(one, Commit([Erasure(CASCADE)]), next);
    CascadeDoubles(run, w);
    b := Miscounts(run, 2);
  }

  // --------------------------------------- a corrected memory never embedded

  const HELD := Said(1, "tea", true, [])

  const BETTER := Said(2, "coffee", false, [1]).(kind := Correction)

  const PROVIDER := Identity("m", 3, true)

  const CORRECTION := [Life(Capture(2, 2, 2, BETTER, None, 6)), Life(Supersession(map[], 2, 1, 2, 7))]

  function Retired(models: map<Revision, Model>): map<Revision, Model> {
    map r | r in models :: models[r].(active := false)
  }

  lemma {:induction false} ActivationStep(db: Db, rev: Revision, identity: Identity)
    requires forall r | r in db.models :: r < rev
    ensures Exec(db, OnRegistry(Deactivate(rev))).Ran?
    ensures var mid := Exec(db, OnRegistry(Deactivate(rev))).db;
            mid == db.(models := Retired(db.models)) && Exec(mid, OnRegistry(InsertModel(rev, identity, 0))).Ran?
            && Exec(mid, OnRegistry(InsertModel(rev, identity, 0))).db
               == db.(models := Retired(db.models)[rev := Model(identity, 0, true)])
  {
  }

  /** A revision above all others becomes the active one. */
  lemma {:induction false} Activates(run: Run, now: World, rev: Revision, identity: Identity) returns (more: Run, w: World)
    requires IsRun(run) && now == run.worlds[|run.worlds| - 1]
    requires rev > 0 && identity.dims > 0 && forall r | r in now.db.models :: r < rev
    ensures IsRun(more) && more == Grown(run, Commit([Pipeline(Activating(rev, identity, 0))]), w)
    ensures w == now.(db := now.db.(models := Retired(now.db.models)[rev := Model(identity, 0, true)]))
  {
    var off, on := OnRegistry(Deactivate(rev)), OnRegistry(InsertModel(rev, identity, 0));
    ActivationStep(now.db, rev, identity);
    var mid := Exec(now.db, off).db;
    w := now.(db := Exec(mid, on).db);
    assert ActivateStatements(rev, identity, 0) == [off] + ([on] + []);
    RunsOn(now.db, off, mid, [on] + []);
    RunsOn(mid, on, w.db, []);
    GrowsBy(run, now, Pipeline(Activating(rev, identity, 0)), ActivateStatements(rev, identity, 0), w.db);
    more := Grown(run, Commit([Pipeline(Activating(rev, identity, 0))]), w);
  }

  lemma {:induction false} Unlinked(db: Db)
    requires forall m | m in db.memory :: db.memory[m].supersededBy.None?
    ensures 1 !in Successors(Links(db), 2)
  {
    assert Links(db) == map[];
  }

  lemma {:induction false} Supersedes(read: Db, db: Db) returns (end: Db)
    requires 1 in read.memory && read.memory[1].state == Quarantined && read.memory[1].record.state == Quarantined
    requires 1 in db.memory && db.memory[1] == read.memory[1]
    requires forall m | m in db.memory :: db.memory[m].supersededBy.None?
    ensures SupersedeStatements(map[], read, 1, 2, 7).Some?
    ensures ExecAll(db, SupersedeStatements(map[], read, 1, 2, 7).value).Ran?
    ensures end == ExecAll(db, SupersedeStatements(map[], read, 1, 2, 7).value).db
    ensures Embeddable(end, 1) && end.details == db.details && end.models == db.models
  {
    var expected := read.memory[1].record;
    var replaced := expected.(state := Superseded, successor := Some(2), updated := 7);
    var move := OnRows(Supersede(1, 2, expected, replaced));
    var down := OnCounters(Adjust(Bucket(expected.kind, expected.state), -1));
    var up := OnCounters(Adjust(Bucket(expected.kind, Superseded), 1));
    assert SupersedeStatements(map[], read, 1, 2, 7).value == [move] + ([down] + ([up] + []));
    Unlinked(db);
    var a := Exec(db, move).db;
    RunsOn(db, move, a, [down] + ([up] + []));
    var b := Exec(a, down).db;
    RunsOn(a, down, b, [up] + []);
    end := Exec(b, up).db;
    RunsOn(b, up, end, []);
  }

  lemma {:induction false} BetterArrives(h: seq<World>, now: World) returns (mid: World)
    requires |h| == 3 && h[2] == now && now.db.memory == map[1 := RowOf(HELD)] && ActiveRevisions(now.db) == {1}
    requires now.db.details.derivation == {} && 2 !in now.db.details.provenance
    ensures Effect(h, now, CORRECTION[0]) == Some(mid) && mid == now.(db := mid.db) && Arrived(now.db, BETTER, mid.db)
  {
    assert Fresh(now.db, BETTER);
    CaptureStages(now.db, BETTER);
    InsertArrives(now.db, BETTER);
    mid := now.(db := ExecAll(now.db, InsertStatements(now.db, BETTER, None)).db);
  }

  lemma {:induction false} HeldIsSuperseded(h: seq<World>, now: World, mid: World) returns (w: World)
    requires |h| == 3 && h[2] == now && now.db.memory == map[1 := RowOf(HELD)] && Arrived(now.db, BETTER, mid.db)
    ensures Effect(h, mid, CORRECTION[1]) == Some(w)
    ensures Embeddable(w.db, 1) && w.db.details == mid.db.details && w.db.models == mid.db.models
  {
    var end := Supersedes(now.db, mid.db);
    w := mid.(db := end);
  }

  lemma {:induction false} Corrects(run: Run, now: World) returns (more: Run, w: World)
    requires IsRun(run) && |run.worlds| == 3 && now == run.worlds[2]
    requires now.db.memory == map[1 := RowOf(HELD)] && now.db.models == map[1 := Model(PROVIDER, 0, true)]
    requires now.db.details.derivation == {} && 2 !in now.db.details.provenance
    ensures IsRun(more) && more == Grown(run, Commit(CORRECTION), w)
    ensures Embeddable(w.db, 1) && w.db.models == now.db.models && w.db.details.vectors == now.db.details.vectors
    ensures w.db.details.work.Keys == now.db.details.work.Keys + {WorkKey(2, 1, "m")}
  {
    assert ActiveRevisions(now.db) == {1};
    var mid := BetterArrives(run.worlds, now);
    assert (set r | r in ActiveRevisions(now.db) :: WorkKey(2, r, now.db.models[r].identity.modelId)) == {WorkKey(2, 1, "m")};
    w := HeldIsSuperseded(run.worlds, now, mid);
    more := CorrectionGrows(run, now, mid, w);
  }

  lemma {:induction false} CorrectionGrows(run: Run, now: World, mid: World, w: World) returns (more: Run)
    requires IsRun(run) && now == run.worlds[|run.worlds| - 1]
    requires Effect(run.worlds, now, CORRECTION[0]) == Some(mid) && Effect(run.worlds, mid, CORRECTION[1]) == Some(w)
    ensures IsRun(more) && more == Grown(run, Commit(CORRECTION), w)
  {
    TwoEffects(run.worlds, now, mid, w);
    Grows(run, Commit(CORRECTION), w);
    more := Grown(run, Commit(CORRECTION), w);
  }

  lemma {:induction false} TwoEffects(h: seq<World>, now: World, mid: World, w: World)
    requires Effect(h, now, CORRECTION[0]) == Some(mid) && Effect(h, mid, CORRECTION[1]) == Some(w)
    ensures Effects(h, now, CORRECTION) == Some(w)
  {
    assert CORRECTION[1..] == [CORRECTION[1]] && CORRECTION[1..][1..] == [];
    assert Effects(h, mid, CORRECTION[1..]) == Effects(h, w, []);
  }

  lemma {:induction false} HeldThenActivated() returns (run: Run, w: World)
    ensures IsRun(run) && |run.worlds| == 3 && run.worlds[2] == w
    ensures run.events == [Commit([Life(Capture(0, 0, 0, HELD, None, 3))]), Commit([Pipeline(Activating(1, PROVIDER, 0))])]
    ensures w.db.memory == map[1 := RowOf(HELD)] && w.db.models == map[1 := Model(PROVIDER, 0, true)]
    ensures w.db.details.derivation == {} && 2 !in w.db.details.provenance
    ensures w.db.details.vectors == {} && w.db.details.work.Keys == {}
  {
    GenesisFresh(HELD);
    var one, a := Captures(START, GENESIS, HELD);
    assert ActiveRevisions(EMPTY) == {};
    run, w := Activates(one, a, 1, PROVIDER);
  }

  lemma {:induction false} NothingMissing(run: Run, db: Db)
    requires |run.worlds| == 4 && |run.events| == 3 && run.worlds[2].db == db && db.memory == map[1 := RowOf(HELD)]
    ensures IsPass(run, 1, "m", 100, [PassStep(2, 2, None)])
  {
    assert Missing(db, 1, None) == {};
    assert IsBatch(run, 1, "m", 100, PassStep(2, 2, None));
  }

  lemma {:induction false} Uncovered(before: Db, after: Db)
    requires before.details.vectors == {} == after.details.vectors && before.details.work.Keys == {}
    requires after.details.work.Keys == {WorkKey(2, 1, "m")}
    ensures !StoreEmbedding.Covered(before, 1, 1) && !StoreEmbedding.Covered(after, 1, 1)
  {
  }

  /** The exception of a finished pass happens: a quarantined memory is there, a model is
      activated, the pass over it ends with nothing to do, the memory is corrected by
      another; and it is live and neither queued nor embedded. */
  lemma {:induction false} CorrectionUncovers() returns (run: Run)
    ensures IsRun(run)
    ensures run.events == [Commit([Life(Capture(0, 0, 0, HELD, None, 3))]), Commit([Pipeline(Activating(1, PROVIDER, 0))]),
                           Commit(CORRECTION)]
    ensures IsPass(run, 1, "m", 100, [PassStep(2, 2, None)])
    ensures IsActive(Tables(run, 2), 1) && IsActive(Tables(run, 3), 1)
    ensures HeldBack(Tables(run, 2), 1) && !StoreEmbedding.Covered(Tables(run, 2), 1, 1)
    ensures Embeddable(Tables(run, 3), 1) && !StoreEmbedding.Covered(Tables(run, 3), 1, 1)
  {
    var two, b := HeldThenActivated();
    var three, c := Corrects(two, b);
    run := three;
    NothingMissing(run, b.db);
    Uncovered(b.db, c.db);
  }

  // ------------------------------------------ a deadline cleared in between

  const TEA := Said(1, "tea", false, [])

  const LATE := Expiry(2, 2, 3, {1}, [Fact], 10)

  lemma {:induction false} SetsDeadline(run: Run, now: World, until: Option<nat>) returns (more: Run, w: World)
    requires IsRun(run) && now == run.worlds[|run.worlds| - 1] && Present(now.db, 1)
    ensures IsRun(more) && more == Grown(run, Commit([Life(Deadline(1, until))]), w)
    ensures w == now.(db := now.db.(memory := now.db.memory[1 := now.db.memory[1].(validUntil := until)]))
  {
    var st := OnRows(SetValidUntil(1, until));
    w := now.(db := now.db.(memory := now.db.memory[1 := now.db.memory[1].(validUntil := until)]));
    assert [st] == [st] + [];
    RunsOn(now.db, st, w.db, []);
    GrowsBy(run, now, Life(Deadline(1, until)), [st], w.db);
    more := Grown(run, Commit([Life(Deadline(1, until))]), w);
  }

  lemma {:induction false} Materializes(run: Run, now: World) returns (more: Run, w: World)
    requires IsRun(run) && now == run.worlds[|run.worlds| - 1]
    ensures IsRun(more) && more == Grown(run, Commit([Life(Materialize([Fact]))]), w)
    ensures w == now.(db := now.db.(counters := w.db.counters)) && StoreCounters.Materialized(w.db, [Fact])
  {
    var first, second := OnCounters(Adjust(Bucket(Fact, Expired), 0)), OnCounters(Adjust(Bucket(Fact, Active), 0));
    var mid := Exec(now.db, first).db;
    w := now.(db := Exec(mid, second).db);
    assert [Fact][1..] == [];
    assert PrepareExpiry([Fact]) == [first] + ([second] + []);
    RunsOn(now.db, first, mid, [second] + []);
    RunsOn(mid, second, w.db, []);
    GrowsBy(run, now, Life(Materialize([Fact])), PrepareExpiry([Fact]), w.db);
    more := Grown(run, Commit([Life(Materialize([Fact]))]), w);
  }

  /** A batch of an expiry violates nothing. */
  lemma {:induction false} ExpiryRuns(db: Db)
    ensures ExecAll(db, ExpiryStatements([Fact], {1}, 10)).Ran?
  {
    var out, into, move := OnCounters(CountOutOfActive(Fact, {1})), OnCounters(CountIntoExpired(Fact, {1})), OnRows(Expire({1}, 10));
    assert [Fact][1..] == [];
    assert ExpiryStatements([Fact], {1}, 10) == [out] + ([into] + ([move] + []));
    var a := Exec(db, out).db;
    RunsOn(db, out, a, [into] + ([move] + []));
    var b := Exec(a, into).db;
    RunsOn(a, into, b, [move] + []);
    RunsOn(b, move, Exec(b, move).db, []);
  }

  lemma {:induction false} Expires(run: Run, now: World) returns (more: Run, w: World)
    requires IsRun(run) && |run.worlds| == 5 && now == run.worlds[4]
    requires 1 in Due(run.worlds[2].db, 10) && run.worlds[2].db.memory[1].kind == Fact
    requires StoreCounters.Materialized(run.worlds[3].db, [Fact])
    ensures IsRun(more) && more == Grown(run, Commit([Life(LATE)]), w)
  {
    var sts := ExpiryStatements([Fact], {1}, 10);
    assert KindsOf(run.worlds[2].db, {1}, [Fact]);
    assert {1} <= Due(run.worlds[2].db, 10);
    ExpiryRuns(now.db);
    w := now.(db := ExecAll(now.db, sts).db);
    GrowsBy(run, now, Life(LATE), sts, w.db);
    more := Grown(run, Commit([Life(LATE)]), w);
  }

  lemma {:induction false} ClearedLast(run: Run)
    requires |run.events| == 5 && run.events[3] == Commit([Life(Deadline(1, None))])
    ensures StoreDeadlines.LastDeadline(run, 2, 4, 1) == Some(None)
  {
    assert [Life(Deadline(1, None))][1..] == [];
  }

  /** A deadline cleared and committed after the due memories were read does not stop the
      expiry: the memory was due when read, is not due any more, and expires. */
  lemma {:induction false} ClearedDeadlineExpires() returns (run: Run)
    ensures IsRun(run)
    ensures run.events == [Commit([Life(Capture(0, 0, 0, TEA, None, 3))]), Commit([Life(Deadline(1, Some(5)))]),
                           Commit([Life(Materialize([Fact]))]), Commit([Life(Deadline(1, None))]), Commit([Life(LATE)])]
    ensures 1 in Due(run.worlds[2].db, 10) && 1 !in Due(run.worlds[4].db, 10)
    ensures StoreDeadlines.Lapses(run, 4, 1)
  {
    GenesisFresh(TEA);
    var one, a := Captures(START, GENESIS, TEA);
    var two, b := SetsDeadline(one, a, Some(5));
    var three, c := Materializes(two, b);
    var four, d := SetsDeadline(three, c, None);
    var five, e := Expires(four, d);
    run := five;
    ClearedLast(run);
    StoreDeadlines.DeadlineNotRechecked(run, 4, LATE, 1);
  }

  // --------------------------------------------- a claim after its erasure

  const OPERATION := EraseScope(0)

  const OPENED := World(EMPTY, Audit(map[WholeScope := Receipt(OPERATION, false, false)], map[]), map[], {OPERATION}, map[])

  lemma {:induction false} ScopeStarts()
    ensures ErasureEffect([GENESIS], GENESIS, ScopeStart(0, 0, 0, 0)) == Some(OPENED)
  {
    var p := Running(EMPTY, GENESIS.audit, 0);
    StoreAccounting.TwoLines(p, Note(DropDelivered), Note(InsertReceipt(WholeScope, OPERATION)));
    assert {} + {OPERATION} == {OPERATION};
  }

  lemma {:induction false} SweepsNothing(tables: seq<Table>)
    ensures SweepStatements(tables, []) == []
    decreases |tables|
  {
    if tables != [] {
      SweepsNothing(tables[1..]);
    }
  }

  lemma {:induction false} EmptyDrains(time: nat)
    ensures DrainShells(EMPTY, 1) == [] && ExecAll(EMPTY, DrainBatch([], time).statements) == Ran(EMPTY, 0) && ScopeEmpty(EMPTY)
  {
    var keys, claims, sources := OnDetails(DestroyKeys), OnClaims(EraseScopeClaims), OnClaims(ClearClaimSources);
    SweepsNothing(TABLES);
    assert DrainBatch([], time).statements == [keys] + ([claims] + ([sources] + []));
    RunsOn(EMPTY, keys, EMPTY, [claims] + ([sources] + []));
    RunsOn(EMPTY, claims, EMPTY, [sources] + []);
    RunsOn(EMPTY, sources, EMPTY, []);
  }

  /** One drain of nothing makes the operation ready. */
  lemma {:induction false} ScopeDrains(h: seq<World>) returns (next: World)
    requires |h| == 2 && h[1] == OPENED
    ensures ErasureEffect(h, OPENED, Draining(1, 1, 0, 1, 9)) == Some(next)
    ensures next.db == EMPTY && next.audit.receipts == map[WholeScope := Receipt(OPERATION, true, false)]
  {
    var r := Draining(1, 1, 0, 1, 9);
    ScopeDrainRuns();
    assert Stageable(h, OPENED, r);
    next := ErasureEffect(h, OPENED, r).value;
  }

  lemma {:induction false} ScopeDrainRuns()
    ensures DrainShells(EMPTY, 1) == []
    ensures var end := ExecLines(Running(EMPTY, OPENED.audit, 0), DrainLines(OPERATION, [], 9));
            end.Running? && end.db == EMPTY && end.audit.receipts == map[WholeScope := Receipt(OPERATION, true, false)]
  {
    EmptyDrains(9);
    StoreErasing.DrainRuns(Running(EMPTY, OPENED.audit, 0), OPERATION, [], 9);
  }

  lemma {:induction false} Acknowledges(h: seq<World>, w: World) returns (next: World)
    requires |h| == 4 && h[3] == w && OPERATION in w.ledger && w.db == EMPTY
    requires w.audit.receipts == map[WholeScope := Receipt(OPERATION, true, false)]
    ensures ErasureEffect(h, w, Acknowledge(WholeScope, OPERATION, 3)) == Some(next)
    ensures next.db == EMPTY && next.audit.receipts == map[WholeScope := Receipt(OPERATION, true, true)]
  {
    StoreAccounting.SingleLine(Running(w.db, w.audit, 0), Note(MarkDelivered(WholeScope, OPERATION)));
    next := ErasureEffect(h, w, Acknowledge(WholeScope, OPERATION, 3)).value;
  }

  lemma {:induction false} RecordsClaim(run: Run, now: World) returns (more: Run, w: World)
    requires IsRun(run) && now == run.worlds[|run.worlds| - 1] && now.db == EMPTY
    ensures IsRun(more) && more == Grown(run, Commit([Life(ClaimRecord(7, "likes tea", {}))]), w)
    ensures w == now.(db := w.db) && w.db == EMPTY.(claims := w.db.claims) && StoreScope.LiveClaim(w.db)
  {
    var st := OnClaims(InsertClaim(7, "likes tea", {}));
    var next := Exec(EMPTY, st).db;
    assert [st] == [st] + [];
    RunsOn(EMPTY, st, next, []);
    assert 7 in next.claims.history && !next.claims.history[7].erased;
    w := now.(db := next);
    GrowsBy(run, now, Life(ClaimRecord(7, "likes tea", {})), [st], next);
    more := Grown(run, Commit([Life(ClaimRecord(7, "likes tea", {}))]), w);
  }

  lemma {:induction false} ScopeOpened() returns (run: Run)
    ensures IsRun(run) && run == Run([GENESIS, OPENED], [Commit([Erasure(ScopeStart(0, 0, 0, 0))])])
  {
    ScopeStarts();
    Alone([GENESIS], GENESIS, Erasure(ScopeStart(0, 0, 0, 0)), OPENED);
    Grows(START, Commit([Erasure(ScopeStart(0, 0, 0, 0))]), OPENED);
    run := Grown(START, Commit([Erasure(ScopeStart(0, 0, 0, 0))]), OPENED);
  }

  lemma {:induction false} ScopeDrained() returns (run: Run, w: World)
    ensures IsRun(run) && |run.worlds| == 3 && run.worlds[2] == w && w.db == EMPTY
    ensures w.audit.receipts == map[WholeScope := Receipt(OPERATION, true, false)]
    ensures run.events == [Commit([Erasure(ScopeStart(0, 0, 0, 0))]), Commit([Erasure(Draining(1, 1, 0, 1, 9))])]
  {
    var one := ScopeOpened();
    w := ScopeDrains(one.worlds);
    run := GrowsAlone(one, OPENED, Erasure(Draining(1, 1, 0, 1, 9)), w);
  }

  lemma {:induction false} Appends(run: Run, now: World) returns (more: Run, w: World)
    requires IsRun(run) && |run.worlds| == 3 && run.worlds[2] == now
    requires now.audit.receipts == map[WholeScope := Receipt(OPERATION, true, false)]
    ensures IsRun(more) && more == Grown(run, Append(2, 2, WholeScope), w)
    ensures w == now.(ledger := w.ledger) && OPERATION in w.ledger
  {
    var entry := Entry(TotalsOf(now.audit.journal, OPERATION), BatchesOf(now.audit.journal, OPERATION));
    w := now.(ledger := if OPERATION in now.ledger then now.ledger else now.ledger[OPERATION := entry]);
    assert Next(run.worlds, Append(2, 2, WholeScope), w);
    Grows(run, Append(2, 2, WholeScope), w);
    more := Grown(run, Append(2, 2, WholeScope), w);
  }

  lemma {:induction false} ScopeErased() returns (run: Run, w: World)
    ensures IsRun(run) && |run.worlds| == 5 && run.worlds[4] == w && w.db == EMPTY
    ensures w.audit.receipts == map[WholeScope := Receipt(OPERATION, true, true)]
    ensures run.events == [Commit([Erasure(ScopeStart(0, 0, 0, 0))]), Commit([Erasure(Draining(1, 1, 0, 1, 9))]),
                           Append(2, 2, WholeScope), Commit([Erasure(Acknowledge(WholeScope, OPERATION, 3))])]
  {
    var two, b := ScopeDrained();
    var three, c := Appends(two, b);
    w := Acknowledges(three.worlds, c);
    Alone(three.worlds, c, Erasure(Acknowledge(WholeScope, OPERATION, 3)), w);
    Grows(three, Commit([Erasure(Acknowledge(WholeScope, OPERATION, 3))]), w);
    run := Grown(three, Commit([Erasure(Acknowledge(WholeScope, OPERATION, 3))]), w);
  }

  /** The scope is erased, its operation ready, in the ledger and delivered; a claim is then
      recorded, and no request read on the state it leaves may start another operation. */
  lemma {:induction false} ClaimAloneIsOverlooked() returns (run: Run)
    ensures IsRun(run)
    ensures run.events == [Commit([Erasure(ScopeStart(0, 0, 0, 0))]), Commit([Erasure(Draining(1, 1, 0, 1, 9))]),
                           Append(2, 2, WholeScope), Commit([Erasure(Acknowledge(WholeScope, OPERATION, 3))]),
                           Commit([Life(ClaimRecord(7, "likes tea", {}))])]
    ensures ScopeEmpty(run.worlds[4].db) && StoreScope.LiveClaim(run.worlds[5].db)
    ensures forall serial: nat :: !Stageable(run.worlds, run.worlds[5], ScopeStart(5, 5, 5, serial))
  {
    var four, d := ScopeErased();
    EmptyDrains(9);
    var five, e := RecordsClaim(four, d);
    run := five;
    assert !Starts(e.audit, e.db, e.db);
  }

  // -------------------------------------- a worker that mistakes its number

  const OTHER := Identity("other", 3, true)

  const MINE := Identity("mine", 3, true)

  const ITEM := WorkKey(1, 2, "other")

  lemma {:induction false} TwiceActivated() returns (run: Run, w: World)
    ensures IsRun(run) && |run.worlds| == 4 && run.worlds[3] == w
    ensures run.events == [Commit([Life(Capture(0, 0, 0, TEA, None, 3))]), Commit([Pipeline(Activating(1, PROVIDER, 0))]),
                           Commit([Pipeline(Activating(2, OTHER, 0))])]
    ensures run.worlds[2].db.models == map[1 := Model(PROVIDER, 0, true)]
    ensures w.db.memory == map[1 := RowOf(TEA)] && w.db.details.vectors == {} && w.db.details.work == map[]
    ensures w.db.models == map[1 := Model(PROVIDER, 0, false), 2 := Model(OTHER, 0, true)]
  {
    GenesisFresh(TEA);
    var one, a := Captures(START, GENESIS, TEA);
    assert ActiveRevisions(EMPTY) == {};
    assert a.db.details.work.Keys == {};
    var two, b := Activates(one, a, 1, PROVIDER);
    run, w := Activates(two, b, 2, OTHER);
  }

  lemma {:induction false} Queues(run: Run, now: World) returns (more: Run, w: World)
    requires IsRun(run) && |run.worlds| == 4 && run.worlds[3] == now
    requires now.db.memory == map[1 := RowOf(TEA)] && now.db.details.vectors == {} && now.db.details.work == map[]
    requires now.db.models == map[1 := Model(PROVIDER, 0, false), 2 := Model(OTHER, 0, true)]
    ensures IsRun(more) && more == Grown(run, Commit([Pipeline(Reembedding(3, 2, "other", None, 100))]), w)
    ensures w == now.(db := now.db.(details := now.db.details.(work := map[ITEM := Open])))
  {
    var live, named, stage := Guard(MemoryLive(1)), Guard(ModelActive(2, "other")), OnDetails(StageWork(ITEM));
    w := now.(db := now.db.(details := now.db.details.(work := map[ITEM := Open])));
    OnlyOneMissing(now.db);
    assert ReembedStatements([], 2, "other") == [] && [1][1..] == [];
    assert ReembedStatements([1], 2, "other") == [live] + ([named] + ([stage] + []));
    RunsOn(now.db, live, now.db, [named] + ([stage] + []));
    RunsOn(now.db, named, now.db, [stage] + []);
    RunsOn(now.db, stage, w.db, []);
    GrowsBy(run, now, Pipeline(Reembedding(3, 2, "other", None, 100)), ReembedStatements([1], 2, "other"), w.db);
    more := Grown(run, Commit([Pipeline(Reembedding(3, 2, "other", None, 100))]), w);
  }

  lemma {:induction false} OnlyOneMissing(db: Db)
    requires db.memory == map[1 := RowOf(TEA)] && db.details.vectors == {}
    ensures Selected(db, 2, None, 100) == [1]
  {
    assert Missing(db, 2, None) == {1};
    Ordered.FirstByIdPicks({1}, 100);
    var ids := Ordered.FirstById({1}, 100);
    assert 1 in ids && forall i | 0 <= i < |ids| :: ids[i] in ids;
  }

  lemma {:induction false} Mistakes(run: Run, now: World) returns (more: Run, w: World)
    requires IsRun(run) && |run.worlds| == 5 && run.worlds[4] == now && now.db.details.work == map[ITEM := Open]
    requires run.worlds[2].db.models == map[1 := Model(PROVIDER, 0, true)]
    requires now.db.models == map[1 := Model(PROVIDER, 0, false), 2 := Model(OTHER, 0, true)]
    ensures IsRun(more) && more == Grown(run, Commit([Pipeline(EmptyCompletion(2, 4, 4, ITEM, MINE))]), w)
    ensures w == now.(db := now.db.(details := now.db.details.(work := map[ITEM := Done])))
  {
    var st := OnDetails(CompleteWork(ITEM));
    w := now.(db := now.db.(details := now.db.details.(work := map[ITEM := Done])));
    assert IsActive(run.worlds[2].db, 1) && IsActive(now.db, 2);
    assert [st] == [st] + [];
    RunsOn(now.db, st, w.db, []);
    GrowsBy(run, now, Pipeline(EmptyCompletion(2, 4, 4, ITEM, MINE)), [st], w.db);
    more := Grown(run, Commit([Pipeline(EmptyCompletion(2, 4, 4, ITEM, MINE))]), w);
  }

  /** A worker bound to a model nobody recorded begins while another number is active; its
      own number is then given to another model and activated, work is queued at it, and
      the worker completes the item: it is finished, its memory live, and without vectors. */
  lemma {:induction false} MistakenWorkerLeavesNothing() returns (run: Run)
    ensures IsRun(run)
    ensures run.events == [Commit([Life(Capture(0, 0, 0, TEA, None, 3))]), Commit([Pipeline(Activating(1, PROVIDER, 0))]),
                           Commit([Pipeline(Activating(2, OTHER, 0))]), Commit([Pipeline(Reembedding(3, 2, "other", None, 100))]),
                           Commit([Pipeline(EmptyCompletion(2, 4, 4, ITEM, MINE))])]
    ensures StoreCompletion.Finished(Tables(run, 5), ITEM) && IsActive(Tables(run, 5), 2)
    ensures Embeddable(Tables(run, 5), 1) && !HasVector(Tables(run, 5), 1, 2)
  {
    var three, c := TwiceActivated();
    var four, d := Queues(three, c);
    var five, e := Mistakes(four, d);
    run := five;
  }
}
