/** Deadlines over a run, and what an expiry commit does not look at again. */
module StoreDeadlines {

  import opened Wrappers
  import opened Succession
  import opened StoreTables
  import opened StoreRequests
  import opened StoreRuns
  import StoreStaging
  import StoreSteps
  import StoreTheorems
  import StoreInvariants
  import StoreCounters

  // ------------------------------------------------- what a run last set

  /** What the last deadline change of one transaction says about a memory, if one does. */
  function LastSet(rs: seq<Request>, m: MemoryId): Option<Option<nat>>
    decreases |rs|
  {
    if rs == [] then None
    else
      var rest := LastSet(rs[1..], m);
      if rest.Some? then rest
      else if rs[0].Life? && rs[0].life.Deadline? && rs[0].life.id == m then Some(rs[0].life.until)
      else None
  }

  function SetBy(e: Event, m: MemoryId): Option<Option<nat>> {
    if e.Commit? then LastSet(e.requests, m) else None
  }

  /** What the last deadline change committed between two states says about a memory. */
  function LastDeadline(run: Run, i: nat, j: nat, m: MemoryId): Option<Option<nat>>
    requires j <= |run.events|
    decreases j
  {
    if i >= j then None
    else if SetBy(run.events[j - 1], m).Some? then SetBy(run.events[j - 1], m)
    else LastDeadline(run, i, j - 1, m)
  }

  function Latest(last: Option<Option<nat>>, before: Option<nat>): Option<nat> {
    if last.Some? then last.value else before
  }

  /** A deadline was set that is open, or later than `now`. */
  predicate Deferred(last: Option<Option<nat>>, now: nat) {
    last.Some? && (last.value.None? || last.value.value > now)
  }

  // --------------------------------------------------------- one statement

  predicate Sets(st: Statement, m: MemoryId) {
    st.OnRows? && st.row.SetValidUntil? && st.row.id == m
  }

  lemma {:induction false} DeadlineStep(db: Db, st: Statement, m: MemoryId)
    requires m in db.memory && Exec(db, st).Ran?
    ensures m in Exec(db, st).db.memory
    ensures Present(Exec(db, st).db, m) ==>
      Present(db, m)
      && Exec(db, st).db.memory[m].validUntil == if Sets(st, m) then st.row.until else db.memory[m].validUntil
  {
  }

  lemma {:induction false} DeadlineAll(db: Db, sts: seq<Statement>, m: MemoryId)
    requires m in db.memory && ExecAll(db, sts).Ran? && forall i | 0 <= i < |sts| :: !Sets(sts[i], m)
    ensures m in ExecAll(db, sts).db.memory
    ensures Present(ExecAll(db, sts).db, m) ==>
      Present(db, m) && ExecAll(db, sts).db.memory[m].validUntil == db.memory[m].validUntil
    decreases |sts|
  {
    if sts != [] {
      assert !Sets(sts[0], m);
      DeadlineStep(db, sts[0], m);
      assert forall i | 0 <= i < |sts[1..]| :: sts[1..][i] == sts[i + 1];
      DeadlineAll(Exec(db, sts[0]).db, sts[1..], m);
    }
  }

  // ------------------------------------------------------------ one request

  ghost predicate Carried(a: Db, b: Db, m: MemoryId, last: Option<Option<nat>>)
    requires m in a.memory
  {
    m in b.memory
    && (Present(b, m) ==> Present(a, m) && b.memory[m].validUntil == Latest(last, a.memory[m].validUntil))
  }

  lemma {:induction false} DeadlineSets(db: Db, id: MemoryId, until: Option<nat>, m: MemoryId)
    requires m in db.memory && ExecAll(db, [OnRows(SetValidUntil(id, until))]).Ran?
    ensures Carried(db, ExecAll(db, [OnRows(SetValidUntil(id, until))]).db, m, if id == m then Some(until) else None)
  {
    var st := OnRows(SetValidUntil(id, until));
    assert [st][1..] == [];
    assert ExecAll(db, [st]) == ExecAll(Exec(db, st).db, []);
    DeadlineStep(db, st, m);
  }

  lemma {:induction false} EffectDeadline(h: seq<World>, w: World, r: Request, next: World, m: MemoryId)
    requires Effect(h, w, r) == Some(next) && m in w.db.memory
    ensures Carried(w.db, next.db, m, LastSet([r], m))
  {
    assert [r][1..] == [];
    if r.Life? && r.life.Deadline? {
      DeadlineSets(w.db, r.life.id, r.life.until, m);
    } else {
      StoreSteps.EffectRuns(h, w, r, next);
      StoreSteps.EveryStatementFits(h, w, r);
      FittingSets(r, StoreSteps.Batched(h, w, r), m);
      DeadlineAll(w.db, StoreSteps.Batched(h, w, r), m);
    }
  }

  lemma {:induction false} FittingSets(r: Request, sts: seq<Statement>, m: MemoryId)
    requires StoreSteps.AllFit(r, sts) && !(r.Life? && r.life.Deadline?)
    ensures forall i | 0 <= i < |sts| :: !Sets(sts[i], m)
  {
    forall i | 0 <= i < |sts| ensures !Sets(sts[i], m) {
      assert StoreSteps.Fits(r, sts[i]);
    }
  }

  lemma {:induction false} CarriedOn(a: Db, b: Db, c: Db, m: MemoryId, first: Option<Option<nat>>, then_: Option<Option<nat>>)
    requires m in a.memory && Carried(a, b, m, first) && Carried(b, c, m, then_)
    ensures Carried(a, c, m, if then_.Some? then then_ else first)
  {
  }

  lemma {:induction false} LastOfFirst(rs: seq<Request>, m: MemoryId)
    requires rs != []
    ensures LastSet(rs, m) == if LastSet(rs[1..], m).Some? then LastSet(rs[1..], m) else LastSet([rs[0]], m)
  {
    assert [rs[0]][1..] == [];
  }

  lemma {:induction false} FirstDeadline(h: seq<World>, w: World, rs: seq<Request>, next: World, m: MemoryId) returns (mid: World)
    requires rs != [] && Effects(h, w, rs) == Some(next) && m in w.db.memory
    ensures Carried(w.db, mid.db, m, LastSet([rs[0]], m)) && Effects(h, mid, rs[1..]) == Some(next)
  {
    mid := StoreSteps.EffectsFirst(h, w, rs, next);
    EffectDeadline(h, w, rs[0], mid, m);
  }

  lemma {:induction false} EffectsDeadline(h: seq<World>, w: World, rs: seq<Request>, next: World, m: MemoryId)
    requires Effects(h, w, rs) == Some(next) && m in w.db.memory
    ensures Carried(w.db, next.db, m, LastSet(rs, m))
    decreases |rs|
  {
    if rs != [] {
      var mid := FirstDeadline(h, w, rs, next, m);
      EffectsDeadline(h, mid, rs[1..], next, m);
      CarriedOn(w.db, mid.db, next.db, m, LastSet([rs[0]], m), LastSet(rs[1..], m));
      LastOfFirst(rs, m);
    }
  }

  // ------------------------------------------------------------------- runs

  lemma {:induction false} StepDeadline(h: seq<World>, last: World, e: Event, w: World, m: MemoryId)
    requires h != [] && last == h[|h| - 1] && Next(h, e, w) && m in last.db.memory
    ensures Carried(last.db, w.db, m, SetBy(e, m))
  {
    if e.Commit? {
      EffectsDeadline(h, last, e.requests, w, m);
    }
  }

  /** The deadline of a memory that is still there is the last one committed for it. */
  lemma {:induction false} DeadlineFollows(run: Run, i: nat, j: nat, m: MemoryId)
    requires IsRun(run) && i <= j < |run.worlds| && m in run.worlds[i].db.memory
    ensures Carried(run.worlds[i].db, run.worlds[j].db, m, LastDeadline(run, i, j, m))
    decreases j
  {
    if i < j {
      DeadlineFollows(run, i, j - 1, m);
      Cut(run, j);
      StepDeadline(run.worlds[..j], run.worlds[j - 1], run.events[j - 1], run.worlds[j], m);
    }
  }

  // ----------------------------------------------------------------- expiry

  /** A memory that one step of the run moves to expired. */
  predicate Lapses(run: Run, k: nat, m: MemoryId)
    requires k + 1 < |run.worlds|
  {
    var before, after := run.worlds[k].db.memory, run.worlds[k + 1].db.memory;
    m in before && before[m].state != Expired && m in after && after[m].state == Expired
  }

  lemma {:induction false} CountersFirst(kinds: seq<Kind>, ids: set<MemoryId>)
    ensures forall i | 0 <= i < |StoreStaging.ExpiryCounters(kinds, ids)| :: StoreStaging.ExpiryCounters(kinds, ids)[i].OnCounters?
    decreases |kinds|
  {
    if kinds != [] {
      CountersFirst(kinds[1..], ids);
    }
  }

  /** An expiry commit moves exactly the memories it names that are active where it runs. */
  lemma {:induction false} ExpiryLapses(db: Db, kinds: seq<Kind>, ids: set<MemoryId>, now: nat, m: MemoryId)
    requires ExecAll(db, StoreStaging.ExpiryStatements(kinds, ids, now)).Ran? && m in db.memory
    ensures var end := ExecAll(db, StoreStaging.ExpiryStatements(kinds, ids, now)).db;
            m in end.memory
            && end.memory[m].state == if m in ids && db.memory[m].state == Active then Expired else db.memory[m].state
  {
    var counters, move := StoreStaging.ExpiryCounters(kinds, ids), OnRows(Expire(ids, now));
    StoreInvariants.ExecAllAppend(db, counters, [move]);
    CountersFirst(kinds, ids);
    StoreTheorems.CountersOnly(db, counters);
    var mid := ExecAll(db, counters).db;
    assert [move][1..] == [];
    assert ExecAll(mid, [move]) == ExecAll(Exec(mid, move).db, []);
    StoreCounters.ExpireStates(mid, ids, now);
    var end := Exec(mid, move).db;
    assert BucketOf(end.memory[m]).state == end.memory[m].state;
  }

  lemma {:induction false} ExpiryStep(h: seq<World>, last: World, r: LifeRequest, w: World, m: MemoryId)
    requires h != [] && last == h[|h| - 1] && r.Expiry? && Next(h, Commit([Life(r)]), w)
    ensures r.due < |h| && r.ids <= StoreStaging.Due(h[r.due].db, r.now)
    ensures m in last.db.memory ==>
      (m in w.db.memory
       && w.db.memory[m].state == if m in r.ids && last.db.memory[m].state == Active then Expired else last.db.memory[m].state)
  {
    OneEffect(h, last, Life(r), w);
    if m in last.db.memory {
      ExpiryLapses(last.db, r.kinds, r.ids, r.now, m);
    }
  }

  /** A commit of an expiry expires a memory that is no longer due if and only if the batch
      names it, it is still active, and the last deadline committed for it since the due
      memories were read is open or later than the moment of the pass. */
  lemma {:induction false} DeadlineNotRechecked(run: Run, k: nat, r: LifeRequest, m: MemoryId)
    requires IsRun(run) && k < |run.events| && run.events[k] == Commit([Life(r)]) && r.Expiry?
    ensures k + 1 < |run.worlds|
    ensures Lapses(run, k, m) && m !in StoreStaging.Due(run.worlds[k].db, r.now)
       <==> (m in r.ids && m in run.worlds[k].db.memory && run.worlds[k].db.memory[m].state == Active
             && Deferred(LastDeadline(run, r.due, k, m), r.now))
  {
    var h, last, w := run.worlds[..k + 1], run.worlds[k], run.worlds[k + 1];
    Cut(run, k + 1);
    ExpiryStep(h, last, r, w, m);
    assert h[r.due] == run.worlds[r.due];
    if m in r.ids {
      assert m in StoreStaging.Due(run.worlds[r.due].db, r.now);
      DeadlineFollows(run, r.due, k, m);
    }
  }
}
