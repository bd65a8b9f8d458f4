/** What holds in every reachable state, and between any two states of a run. */
module StoreTheorems {

  import opened Wrappers
  import opened Succession
  import opened StoreTables
  import opened StoreStaging
  import opened StoreEmbedding
  import opened StoreRequests
  import opened StoreRuns
  import Ordered
  import StoreInvariants
  import StoreResidue
  import StoreOperations
  import StoreDerivatives

  ghost function Tables(run: Run, i: nat): Db
    requires i < |run.worlds|
  {
    run.worlds[i].db
  }

  // -------------------------------------------------------------- no residue

  /** Once erased, a memory stays erased and blank, and no table beside its own names it
      again, whatever stale captures, merges, workers or erasers commit afterwards. */
  lemma {:induction false} ErasedLeavesNothing(run: Run, i: nat, j: nat, m: MemoryId)
    requires IsRun(run) && i <= j < |run.worlds|
    requires m in Tables(run, i).memory && Tables(run, i).memory[m].state == Erased
    ensures m in Tables(run, j).memory && Tables(run, j).memory[m].state == Erased
    ensures StoreInvariants.RowBlank(Tables(run, j).memory[m]) && StoreResidue.Forgotten(Tables(run, j).details, m)
  {
    StatesFollow(run, i, j);
    assert StoreInvariants.RowPrecedes(Tables(run, i).memory[m], Tables(run, j).memory[m]);
    assert !Present(Tables(run, j), m);
    ResidueForgets(Tables(run, j), m);
  }

  lemma {:induction false} ResidueForgets(db: Db, m: MemoryId)
    requires StoreResidue.NoResidue(db) && !Present(db, m)
    ensures StoreResidue.Forgotten(db.details, m)
  {
  }

  // ------------------------------------------------------------ supersession

  /** No reachable state has a supersession cycle, however many supersessions were
      staged against one stale state. */
  lemma {:induction false} SupersessionAcyclic(run: Run, i: nat)
    requires IsRun(run) && i < |run.worlds|
    ensures Acyclic(Links(Tables(run, i)))
  {
    RunKeeps(run, i);
  }

  /** No two memories that still exist carry one fingerprint. */
  lemma {:induction false} ContentHeldOnce(run: Run, i: nat, m: MemoryId, n: MemoryId)
    requires IsRun(run) && i < |run.worlds| && Present(Tables(run, i), m) && Present(Tables(run, i), n)
    requires Tables(run, i).memory[m].fingerprint == Tables(run, i).memory[n].fingerprint
    ensures m == n
  {
    RunKeeps(run, i);
  }

  // ---------------------------------------------------------------- registry

  /** A registry that recorded a revision has exactly one active, the highest recorded;
      and no revision ever changes what it means. */
  lemma {:induction false} RegistryStands(run: Run, i: nat, j: nat)
    requires IsRun(run) && i <= j < |run.worlds|
    ensures Tables(run, j).models != map[] ==> exists r: Revision :: IsActive(Tables(run, j), r)
    ensures forall r: Revision, q: Revision | IsActive(Tables(run, j), r) && IsActive(Tables(run, j), q) :: r == q
    ensures forall r: Revision, q: Revision | IsActive(Tables(run, j), r) && q in Tables(run, j).models :: q <= r
    ensures forall r: Revision | r in Tables(run, i).models ::
      (r in Tables(run, j).models && Tables(run, j).models[r].identity == Tables(run, i).models[r].identity
       && Tables(run, j).models[r].firstSeen == Tables(run, i).models[r].firstSeen)
    ensures forall r: Revision, q: Revision | IsActive(Tables(run, i), r) && IsActive(Tables(run, j), q) :: r <= q
  {
    StatesFollow(run, i, j);
    var a, b := Tables(run, i), Tables(run, j);
    forall r: Revision, q: Revision | IsActive(b, r) && IsActive(b, q) ensures r == q {
      assert r in b.models && q in b.models && r <= q && q <= r;
    }
    forall r: Revision, q: Revision | IsActive(a, r) && IsActive(b, q) ensures r <= q {
      assert r in b.models;
    }
  }

  // ----------------------------------------------------------- re-embedding

  /** One batch of a pass: the state it read, the state its commit left, its cursor. */
  datatype PassStep = PassStep(read: nat, done: nat, after: Option<MemoryId>)

  ghost function Picked(run: Run, revision: Revision, limit: nat, s: PassStep): seq<MemoryId>
    requires s.read < |run.worlds|
  {
    Selected(Tables(run, s.read), revision, s.after, limit)
  }

  ghost function Overflow(run: Run, revision: Revision, limit: nat, s: PassStep): bool
    requires s.read < |run.worlds|
  {
    |Missing(Tables(run, s.read), revision, s.after)| > limit
  }

  ghost predicate IsBatch(run: Run, revision: Revision, modelId: string, limit: nat, s: PassStep) {
    && s.read <= s.done < |run.worlds|
    && (Picked(run, revision, limit, s) == [] || (s.read < s.done <= |run.events| &&
         run.events[s.done - 1] == Commit([Pipeline(Reembedding(s.read, revision, modelId, s.after, limit))])))
  }

  /** A pass as its scheduler makes it: batch after batch from no cursor at all, each
      starting where the last one stopped, until one reports nothing more. */
  ghost predicate IsPass(run: Run, revision: Revision, modelId: string, limit: nat, steps: seq<PassStep>) {
    && limit > 0 && steps != [] && steps[0].after == None
    && (forall k | 0 <= k < |steps| :: IsBatch(run, revision, modelId, limit, steps[k]))
    && (forall k | 0 <= k < |steps| - 1 ::
          && steps[k].done <= steps[k + 1].read && Overflow(run, revision, limit, steps[k])
          && steps[k + 1].after == (var ids := Picked(run, revision, limit, steps[k]);
                                    if ids == [] then steps[k].after else Some(ids[|ids| - 1])))
    && !Overflow(run, revision, limit, steps[|steps| - 1])
  }

  lemma {:induction false} BatchCommitted(h: seq<World>, last: World, r: PipelineRequest, w: World)
    requires h != [] && last == h[|h| - 1] && Fit(last) && r.Reembedding? && Next(h, Commit([Pipeline(r)]), w)
    ensures r.missing < |h| && StoreOperations.Good(last.db)
    ensures var sts := ReembedStatements(Selected(h[r.missing].db, r.revision, r.after, r.limit), r.revision, r.modelId);
            ExecAll(last.db, sts).Ran? && ExecAll(last.db, sts).db == w.db
  {
    OneEffect(h, last, Pipeline(r), w);
  }

  /** A committed batch covers what it picked. */
  lemma {:induction false} BatchStages(run: Run, revision: Revision, modelId: string, limit: nat, s: PassStep, m: MemoryId)
    requires IsRun(run) && IsBatch(run, revision, modelId, limit, s) && m in Picked(run, revision, limit, s)
    ensures Covered(Tables(run, s.done), m, revision)
  {
    var h, now, w := run.worlds[..s.done], run.worlds[s.done - 1], run.worlds[s.done];
    var r := Reembedding(s.read, revision, modelId, s.after, limit);
    StepWithin(run, s.done, h, now, run.events[s.done - 1], w);
    assert h[s.read] == run.worlds[s.read];
    BatchCommitted(h, now, r, w);
    StoreDerivatives.ReembedCovers(now.db, Picked(run, revision, limit, s), revision, modelId, m);
  }

  /** What was covered, or came later, is covered later still, while the revision is active. */
  lemma {:induction false} CoverLasts(run: Run, i: nat, j: nat, m: MemoryId, r: Revision)
    requires IsRun(run) && i <= j < |run.worlds|
    requires IsActive(Tables(run, i), r) && IsActive(Tables(run, j), r) && Present(Tables(run, j), m)
    requires Covered(Tables(run, i), m, r) || m !in Tables(run, i).memory
    ensures Covered(Tables(run, j), m, r)
  {
    StatesFollow(run, i, j);
  }

  lemma {:induction false} ActiveThroughout(run: Run, i: nat, k: nat, j: nat, r: Revision)
    requires IsRun(run) && i <= k <= j < |run.worlds|
    requires IsActive(Tables(run, i), r) && IsActive(Tables(run, j), r)
    ensures IsActive(Tables(run, k), r)
  {
    StatesFollow(run, i, k);
    StatesFollow(run, k, j);
    ActiveBetween(Tables(run, i), Tables(run, k), Tables(run, j), r);
  }

  lemma {:induction false} PresentThroughout(run: Run, i: nat, j: nat, m: MemoryId)
    requires IsRun(run) && i <= j < |run.worlds| && m in Tables(run, i).memory && Present(Tables(run, j), m)
    ensures Present(Tables(run, i), m)
    ensures Tables(run, i).memory[m].state != Quarantined ==> Tables(run, j).memory[m].state != Quarantined
  {
    StatesFollow(run, i, j);
    assert StoreInvariants.RowPrecedes(Tables(run, i).memory[m], Tables(run, j).memory[m]);
  }

  ghost predicate HeldBack(db: Db, m: MemoryId) {
    m in db.memory && db.memory[m].state == Quarantined
  }

  /** One batch and the memories its cursor passes over. */
  lemma {:induction false} BatchAccounts(run: Run, revision: Revision, modelId: string, limit: nat, s: PassStep, w: nat, m: MemoryId)
    requires IsRun(run) && IsBatch(run, revision, modelId, limit, s) && s.done <= w < |run.worlds|
    requires IsActive(Tables(run, s.read), revision) && IsActive(Tables(run, w), revision) && Present(Tables(run, w), m)
    requires s.after.None? || s.after.value < m
    requires var ids := Picked(run, revision, limit, s);
             !Overflow(run, revision, limit, s) || (ids != [] && m <= ids[|ids| - 1])
    ensures Covered(Tables(run, w), m, revision) || HeldBack(Tables(run, s.read), m)
  {
    var db := Tables(run, s.read);
    if m !in db.memory || HasVector(db, m, revision) {
      CoverLasts(run, s.read, w, m, revision);
    } else {
      PresentThroughout(run, s.read, w, m);
      if db.memory[m].state != Quarantined {
        var missing := Missing(db, revision, s.after);
        assert m in missing;
        Ordered.FirstByIdPicks(missing, limit);
        PickedAll(missing, limit, m);
        BatchStages(run, revision, modelId, limit, s, m);
        ActiveThroughout(run, s.read, s.done, w, revision);
        CoverLasts(run, s.done, w, m, revision);
      }
    }
  }

  lemma {:induction false} PickedAll(s: set<nat>, limit: nat, m: nat)
    requires m in s
    requires var ids := Ordered.FirstById(s, limit); |s| <= limit || (ids != [] && m <= ids[|ids| - 1])
    ensures m in Ordered.FirstById(s, limit)
  {
    Ordered.FirstByIdPicks(s, limit);
    var ids := Ordered.FirstById(s, limit);
    if |s| <= limit {
      Ordered.TakesAll(s, ids);
    } else {
      assert ids[|ids| - 1] in ids;
    }
  }

  /** From batch `k` on, everything beyond its cursor is accounted for. */
  lemma {:induction false} PassFrom(run: Run, revision: Revision, modelId: string, limit: nat, steps: seq<PassStep>, k: nat, w: nat, m: MemoryId)
    returns (at: nat)
    requires IsRun(run) && IsPass(run, revision, modelId, limit, steps) && k < |steps|
    requires steps[|steps| - 1].done <= w < |run.worlds|
    requires IsActive(Tables(run, steps[k].read), revision) && IsActive(Tables(run, w), revision) && Present(Tables(run, w), m)
    requires steps[k].after.None? || steps[k].after.value < m
    ensures at < |steps| && steps[k].read <= steps[at].read && steps[at].read <= w
    ensures Covered(Tables(run, w), m, revision) || HeldBack(Tables(run, steps[at].read), m)
    decreases |steps| - k
  {
    assert IsBatch(run, revision, modelId, limit, steps[k]);
    DoneOrdered(run, revision, modelId, limit, steps, k, w);
    var ids := Picked(run, revision, limit, steps[k]);
    if k == |steps| - 1 || (ids != [] && m <= ids[|ids| - 1]) {
      BatchAccounts(run, revision, modelId, limit, steps[k], w, m);
      at := k;
    } else {
      PickedSome(Missing(Tables(run, steps[k].read), revision, steps[k].after), limit);
      assert steps[k].done <= steps[k + 1].read;
      DoneOrdered(run, revision, modelId, limit, steps, k + 1, w);
      ActiveThroughout(run, steps[k].read, steps[k + 1].read, w, revision);
      at := PassFrom(run, revision, modelId, limit, steps, k + 1, w, m);
    }
  }

  lemma {:induction false} PickedSome(s: set<nat>, limit: nat)
    requires |s| > limit > 0
    ensures Ordered.FirstById(s, limit) != []
  {
    Ordered.FirstByIdPicks(s, limit);
  }

  lemma {:induction false} DoneOrdered(run: Run, revision: Revision, modelId: string, limit: nat, steps: seq<PassStep>, k: nat, w: nat)
    requires IsPass(run, revision, modelId, limit, steps) && k < |steps| && steps[|steps| - 1].done <= w
    ensures steps[k].read <= steps[k].done <= w
    decreases |steps| - k
  {
    assert IsBatch(run, revision, modelId, limit, steps[k]);
    if k < |steps| - 1 {
      DoneOrdered(run, revision, modelId, limit, steps, k + 1, w);
    }
  }

  /** After a pass for the active revision has reported nothing more, and for as long as
      that revision stays active, every live memory is queued or embedded at it, except
      one that was quarantined, and had nothing at it, when the pass began. */
  lemma {:induction false} PassCovers(run: Run, revision: Revision, modelId: string, limit: nat, steps: seq<PassStep>, w: nat, m: MemoryId)
    requires IsRun(run) && IsPass(run, revision, modelId, limit, steps)
    requires steps[|steps| - 1].done <= w < |run.worlds| && steps[0].read < |run.worlds|
    requires IsActive(Tables(run, steps[0].read), revision) && IsActive(Tables(run, w), revision)
    requires Embeddable(Tables(run, w), m)
    ensures Covered(Tables(run, w), m, revision)
         || (HeldBack(Tables(run, steps[0].read), m) && !Covered(Tables(run, steps[0].read), m, revision))
  {
    var at := PassFrom(run, revision, modelId, limit, steps, 0, w, m);
    var start := steps[0].read;
    if !Covered(Tables(run, w), m, revision) {
      if m !in Tables(run, start).memory || Covered(Tables(run, start), m, revision) {
        CoverLasts(run, start, w, m, revision);
      } else {
        StatesFollow(run, start, steps[at].read);
        assert StoreInvariants.RowPrecedes(Tables(run, start).memory[m], Tables(run, steps[at].read).memory[m]);
      }
    }
  }

  /** A supersession that commits, however old its reading, leaves the row superseded and
      nothing else of the memory changed: it brings no work and no vector. */
  lemma {:induction false} SupersessionMoves(walked: map<MemoryId, MemoryId>, rowRead: Db, db: Db, m: MemoryId, heir: MemoryId, at: nat)
    requires m in db.memory && SupersedeStatements(walked, rowRead, m, heir, at).Some?
    requires ExecAll(db, SupersedeStatements(walked, rowRead, m, heir, at).value).Ran?
    ensures var end := ExecAll(db, SupersedeStatements(walked, rowRead, m, heir, at).value).db;
            && m in end.memory && end.memory[m].state == Superseded && end.memory[m].supersededBy == Some(heir)
            && end.details == db.details
  {
    var expected := rowRead.memory[m].record;
    var replaced := expected.(state := Superseded, successor := Some(heir), updated := at);
    var move := OnRows(Supersede(m, heir, expected, replaced));
    var rest := [OnCounters(Adjust(Bucket(expected.kind, expected.state), -1)), OnCounters(Adjust(Bucket(expected.kind, Superseded), 1))];
    assert SupersedeStatements(walked, rowRead, m, heir, at).value == [move] + rest;
    StoreOperations.HeadFirst(db, move, rest);
    CountersOnly(Exec(db, move).db, rest);
  }

  lemma {:induction false} CountersOnly(db: Db, sts: seq<Statement>)
    requires (forall i | 0 <= i < |sts| :: sts[i].OnCounters?) && ExecAll(db, sts).Ran?
    ensures ExecAll(db, sts).db == db.(counters := ExecAll(db, sts).db.counters)
    decreases |sts|
  {
    if sts != [] {
      assert sts[0].OnCounters?;
      assert Exec(db, sts[0]).db == db.(counters := Exec(db, sts[0]).db.counters);
      assert forall i | 0 <= i < |sts[1..]| :: sts[1..][i] == sts[i + 1];
      CountersOnly(Exec(db, sts[0]).db, sts[1..]);
    }
  }

  // -------------------------------------------------------------- activation

  /** The first read of a provider activation. */
  function Latest(db: Db): nat {
    if db.models.Keys == {} then 0 else Ordered.Highest(db.models.Keys)
  }

  ghost predicate Runs(db: Db, identity: Identity) {
    exists r: Revision :: IsActive(db, r) && db.models[r].identity == identity
  }

  ghost predicate RaceWon(first: Db, before: Db, after: Db, identity: Identity) {
    var r := Latest(first) + 1;
    && IsActive(after, r) && after.models[r].identity == identity
    && (r in before.models ==> before.models[r].identity == identity && after.models == before.models)
    && (r !in before.models ==> !Runs(before, identity) && Latest(before) == Latest(first))
  }

  /** A provider activation reads the latest revision, then the active model, and commits
      later; others may have activated anything in between. If its commit stands, the
      number it computed now means its own model and is active. And either that number
      was already this model, so nothing changed, or it is new and the model active until
      then was another: the race never mints a second number for an active model. */
  lemma {:induction false} ActivationRace(run: Run, i: nat, j: nat, c: nat, identity: Identity, now: nat)
    requires IsRun(run) && i <= j <= c < |run.events|
    requires !Runs(Tables(run, j), identity)
    requires run.events[c] == Commit([Pipeline(Activating(Latest(Tables(run, i)) + 1, identity, now))])
    ensures RaceWon(Tables(run, i), Tables(run, c), Tables(run, c + 1), identity)
  {
    var r := Latest(Tables(run, i)) + 1;
    ActivationCommitted(run, c, r, identity, now);
    RacedFrom(run, i, j, c, Tables(run, c + 1), identity, now);
  }

  lemma {:induction false} RacedFrom(run: Run, i: nat, j: nat, c: nat, after: Db, identity: Identity, now: nat)
    requires IsRun(run) && i <= j <= c < |run.worlds| && !Runs(Tables(run, j), identity)
    requires ExecAll(Tables(run, c), ActivateStatements(Latest(Tables(run, i)) + 1, identity, now)).Ran?
    requires ExecAll(Tables(run, c), ActivateStatements(Latest(Tables(run, i)) + 1, identity, now)).db == after
    ensures RaceWon(Tables(run, i), Tables(run, c), after, identity)
  {
    RacedIn(run, i, j, c, Tables(run, i), Tables(run, j), Tables(run, c), after, identity, now);
  }

  lemma {:induction false} RacedIn(run: Run, i: nat, j: nat, c: nat, first: Db, read: Db, before: Db, after: Db, identity: Identity, now: nat)
    requires IsRun(run) && i <= j <= c < |run.worlds| && !Runs(read, identity)
    requires first == Tables(run, i) && read == Tables(run, j) && before == Tables(run, c)
    requires ExecAll(before, ActivateStatements(Latest(first) + 1, identity, now)).Ran?
    requires ExecAll(before, ActivateStatements(Latest(first) + 1, identity, now)).db == after
    ensures RaceWon(first, before, after, identity)
  {
    RegistriesFollow(run, i, j);
    RegistriesFollow(run, j, c);
    Raced(first, read, before, after, identity, now);
  }

  lemma {:induction false} ActivationCommitted(run: Run, c: nat, r: Revision, identity: Identity, now: nat)
    requires IsRun(run) && c < |run.events| && run.events[c] == Commit([Pipeline(Activating(r, identity, now))])
    ensures |run.worlds| == |run.events| + 1
    ensures ExecAll(Tables(run, c), ActivateStatements(r, identity, now)).Ran?
    ensures ExecAll(Tables(run, c), ActivateStatements(r, identity, now)).db == Tables(run, c + 1)
  {
    Cut(run, c + 1);
    ActivationStep(run.worlds[..c + 1], run.worlds[c], r, identity, now, run.events[c], run.worlds[c + 1]);
  }

  ghost predicate RegistryKept(db: Db) {
    StoreInvariants.ActiveIsHighest(db) && SomeActive(db) && 0 !in db.models
  }

  ghost predicate ModelsStay(earlier: Db, later: Db) {
    forall r | r in earlier.models :: r in later.models && later.models[r].identity == earlier.models[r].identity
  }

  lemma {:induction false} RegistriesFollow(run: Run, i: nat, j: nat)
    requires IsRun(run) && i <= j < |run.worlds|
    ensures RegistryKept(Tables(run, i)) && RegistryKept(Tables(run, j)) && ModelsStay(Tables(run, i), Tables(run, j))
  {
    StatesFollow(run, i, j);
  }

  lemma {:induction false} ActivationStep(h: seq<World>, last: World, r: Revision, identity: Identity, now: nat, e: Event, w: World)
    requires h != [] && last == h[|h| - 1] && e == Commit([Pipeline(Activating(r, identity, now))]) && Next(h, e, w)
    ensures ExecAll(last.db, ActivateStatements(r, identity, now)).Ran?
    ensures ExecAll(last.db, ActivateStatements(r, identity, now)).db == w.db
  {
    OneEffect(h, last, Pipeline(Activating(r, identity, now)), w);
  }

  lemma {:induction false} Raced(first: Db, read: Db, before: Db, after: Db, identity: Identity, now: nat)
    requires RegistryKept(first) && RegistryKept(read) && RegistryKept(before) && ModelsStay(first, read) && ModelsStay(read, before)
    requires !Runs(read, identity)
    requires ExecAll(before, ActivateStatements(Latest(first) + 1, identity, now)).Ran?
    requires ExecAll(before, ActivateStatements(Latest(first) + 1, identity, now)).db == after
    ensures RaceWon(first, before, after, identity)
  {
    var r := Latest(first) + 1;
    StoreDerivatives.ActivationRuns(before, r, identity, now);
    if r in before.models {
      Converges(before, r, identity, now);
    } else {
      NothingBetween(first, read, before, r, identity);
    }
  }

  lemma {:induction false} Converges(db: Db, r: Revision, identity: Identity, now: nat)
    requires RegistryKept(db) && r in db.models && ExecAll(db, ActivateStatements(r, identity, now)).Ran?
    requires forall q: Revision | q in db.models :: q <= r
    ensures ExecAll(db, ActivateStatements(r, identity, now)).db.models == db.models
  {
    var off, on := OnRegistry(Deactivate(r)), OnRegistry(InsertModel(r, identity, now));
    assert ActivateStatements(r, identity, now) == [off] + [on];
    StoreOperations.HeadFirst(db, off, [on]);
    var mid := Exec(db, off).db;
    StoreOperations.HeadFirst(mid, on, []);
    assert [on] + [] == [on];
    var active: Revision :| IsActive(db, active);
    assert active == r;
    var end := Exec(mid, on).db;
    forall q: Revision | q in db.models ensures q in end.models && end.models[q] == db.models[q] {
      assert q != r ==> !IsActive(db, q);
    }
  }

  lemma {:induction false} NothingBetween(first: Db, read: Db, before: Db, r: Revision, identity: Identity)
    requires RegistryKept(first) && RegistryKept(read) && RegistryKept(before) && ModelsStay(first, read) && ModelsStay(read, before)
    requires r == Latest(first) + 1 && !Runs(read, identity)
    requires r !in before.models && forall q: Revision | q in before.models :: q <= r
    ensures !Runs(before, identity) && Latest(before) == Latest(first)
  {
    if before.models.Keys == {} {
      assert first.models.Keys <= before.models.Keys;
    } else {
      var top := Latest(before);
      assert top in before.models && top < r && top != 0;
      assert first.models.Keys != {} && Latest(first) in first.models;
      assert Latest(first) in read.models && Latest(first) in before.models;
      assert top == Latest(first);
      var a: Revision :| IsActive(before, a);
      assert a == top;
      var b: Revision :| IsActive(read, b);
      assert b in before.models && top in read.models && b == top;
      assert IsActive(read, top);
      forall q: Revision | IsActive(before, q) ensures before.models[q].identity != identity {
        assert q == top;
      }
    }
  }
}
