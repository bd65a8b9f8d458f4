/** Runs of the store, and what holds in every state of every run.

    A run starts from empty tables. Each step is one committed transaction, whose
    requests read whatever earlier states they like, or one append to the ledger.
    A crash is a step that does not happen; two runners of one operation are two
    requesters whose reads interleave. Leases play no part. */
module StoreRuns {

  import opened Wrappers
  import opened Succession
  import opened StoreTables
  import opened StoreStaging
  import opened StoreWorld
  import opened StoreAccounting
  import opened StoreOperations
  import opened StoreErasing
  import opened StoreRequests
  import opened StoreReceipts
  import Ordered
  import StoreInvariants
  import StoreResidue
  import StoreCounters

  const GENESIS := World(EMPTY, Audit(map[], map[]), map[], {}, map[])

  datatype Event = Commit(requests: seq<Request>) | Append(read: Moment, counted: Moment, target: Target)

  /** `worlds[i]` became `worlds[i + 1]` by `events[i]`. */
  datatype Run = Run(worlds: seq<World>, events: seq<Event>)

  // ---------------------------------------------------------- one request

  /** A second scope operation starts only over a delivered one, and only for new
      memories or keys. */
  predicate Starts(previous: Audit, content: Db, keys: Db) {
    WholeScope in previous.receipts ==>
      previous.receipts[WholeScope].delivered
      && ((exists m <- content.memory :: content.memory[m].state != Erased) || keys.details.keys != map[])
  }

  ghost predicate Draws(w: World, serial: nat) {
    WholeScope in w.audit.receipts && w.audit.receipts[WholeScope].operation == EraseScope(serial)
    && !w.audit.receipts[WholeScope].ready
  }

  /** What an erasure request needs of its reads to be staged at all. */
  ghost predicate Stageable(h: seq<World>, w: World, r: ErasureRequest) {
    match r
    case Erasing(target, read, cascade, derived, ids, looks, at) =>
      && read < |h| && derived < |h| && |looks| == |ids| && (forall i | 0 <= i < |looks| :: looks[i] < |h|)
      && Present(h[read].db, target)
      && (if cascade then Lists(ids, DerivedOf(h[derived].db, target)) else ids == [])
    case ScopeStart(previous, content, keys, serial) =>
      && previous < |h| && content < |h| && keys < |h|
      && Starts(h[previous].audit, h[content].db, h[keys].db)
      && EraseScope(serial) !in w.started
    case Draining(receipt, batchRead, serial, batch, time) =>
      receipt <= batchRead < |h| && 1 <= batch <= MAX_ERASURE_BATCH && Draws(h[receipt], serial)
    case Acknowledge(place, delivered, appended) =>
      appended < |h| && delivered in h[appended].ledger
  }

  ghost function ShellsRead(h: seq<World>, r: ErasureRequest): seq<Shell>
    requires r.Erasing? && r.read < |h| && |r.looks| == |r.ids| && (forall i | 0 <= i < |r.looks| :: r.looks[i] < |h|)
    requires Present(h[r.read].db, r.target)
  {
    ErasureShells(h[r.read].db, r.target, seq(|r.ids|, i requires 0 <= i < |r.looks| => h[r.looks[i]].db), r.ids)
  }

  ghost function ErasureLines(h: seq<World>, w: World, r: ErasureRequest): seq<Line>
    requires Stageable(h, w, r)
  {
    match r
    case Erasing(target, _, cascade, _, _, _, at) => EraseLines(target, ShellsRead(h, r), cascade, at)
    case ScopeStart(_, _, _, serial) => StartLines(serial)
    case Draining(_, batchRead, serial, batch, time) => DrainLines(EraseScope(serial), DrainShells(h[batchRead].db, batch), time)
    case Acknowledge(place, delivered, _) => [Note(MarkDelivered(place, delivered))]
  }

  /** The operation a request destroys for, if it destroys. */
  function Destroyer(r: ErasureRequest): Option<Operation> {
    match r
    case Erasing(target, _, _, _, _, _, _) => Some(EraseMemory(target))
    case Draining(_, _, serial, _, _) => Some(EraseScope(serial))
    case _ => None
  }

  function Opens(r: ErasureRequest): set<Operation> {
    match r
    case Erasing(target, _, _, _, _, _, _) => {EraseMemory(target)}
    case ScopeStart(_, _, _, serial) => {EraseScope(serial)}
    case _ => {}
  }

  ghost function Wiped(w: World, r: ErasureRequest, end: Progress): World
    requires end.Running?
  {
    World(end.db, end.audit, w.ledger, w.started + Opens(r),
          match Destroyer(r)
          case None => w.tally
          case Some(o) => w.tally[o := Plus(Tally(w, o), Destroyed(w.db, end.db))])
  }

  ghost function PlainEffect(w: World, staged: Option<seq<Statement>>): Option<World> {
    if staged.None? then None
    else match ExecAll(w.db, staged.value)
      case Abort => None
      case Ran(db, _) => Some(w.(db := db))
  }

  ghost function ErasureEffect(h: seq<World>, w: World, r: ErasureRequest): Option<World> {
    if !Stageable(h, w, r) then None
    else
      var end := ExecLines(Running(w.db, w.audit, 0), ErasureLines(h, w, r));
      if end.Failed? then None else Some(Wiped(w, r, end))
  }

  /** What one request does inside a transaction, or none when it refuses or aborts. */
  ghost function Effect(h: seq<World>, w: World, r: Request): Option<World> {
    match r
    case Life(life) => PlainEffect(w, LifeStaged(h, life))
    case Pipeline(pipeline) => PlainEffect(w, PipelineStaged(h, pipeline))
    case Erasure(erasure) => ErasureEffect(h, w, erasure)
  }

  ghost function Effects(h: seq<World>, w: World, rs: seq<Request>): Option<World>
    decreases |rs|
  {
    if rs == [] then Some(w)
    else match Effect(h, w, rs[0])
      case None => None
      case Some(next) => Effects(h, next, rs[1..])
  }

  /** What callers may put in one transaction: captures with what hangs on them, claims,
      activations, and prepared erasures. Everything else commits alone. */
  predicate Composes(r: Request) {
    match r
    case Life(life) => life.Capture? || life.RefusalKey? || life.Supersession? || life.Deadline? || life.ClaimRecord?
    case Erasure(erasure) => erasure.Erasing?
    case Pipeline(pipeline) => pipeline.Activating?
  }

  predicate OneTransaction(rs: seq<Request>) {
    |rs| == 1 || forall i | 0 <= i < |rs| :: Composes(rs[i])
  }

  // ---------------------------------------------------------------- runs

  ghost predicate Next(h: seq<World>, e: Event, w: World)
    requires h != []
  {
    var now := h[|h| - 1];
    match e
    case Commit(rs) => OneTransaction(rs) && Effects(h, now, rs) == Some(w)
    case Append(read, counted, target) =>
      && read <= counted < |h| && target in h[read].audit.receipts && h[read].audit.receipts[target].ready
      && var o := h[read].audit.receipts[target].operation;
         Appended(now, w, o, Entry(TotalsOf(h[counted].audit.journal, o), BatchesOf(h[counted].audit.journal, o)))
  }

  ghost predicate StepAt(run: Run, i: nat)
    requires |run.worlds| == |run.events| + 1
  {
    i < |run.events| && Next(run.worlds[..i + 1], run.events[i], run.worlds[i + 1])
  }

  ghost predicate IsRun(run: Run) {
    && |run.worlds| == |run.events| + 1 && run.worlds[0] == GENESIS
    && (forall i: nat {:trigger StepAt(run, i)} | i < |run.events| :: StepAt(run, i))
  }

  // ------------------------------------------------------------- invariants

  ghost predicate Fit(w: World) {
    Good(w.db) && Audited(w)
  }

  ghost predicate Follows(a: World, b: World) {
    Onward(a.db, b.db) && Records(a, b)
  }

  /** Each state of the history keeps the invariant and is followed by the next, and `w`
      follows the last of them. */
  ghost predicate History(h: seq<World>, w: World)
    decreases |h|
  {
    h != [] ==>
      var last := h[|h| - 1];
      Fit(last) && Follows(last, w) && History(h[..|h| - 1], last)
  }

  lemma {:induction false} FollowsTransitive(a: World, b: World, c: World)
    requires Fit(b) && Fit(c) && Follows(a, b) && Follows(b, c)
    ensures Follows(a, c)
  {
    OnwardTransitive(a.db, b.db, c.db);
    RecordsTransitive(a, b, c);
  }

  lemma {:induction false} HistoryFollows(h: seq<World>, w: World, next: World)
    requires History(h, w) && Fit(w) && Fit(next) && Follows(w, next)
    ensures History(h, next)
  {
    if h != [] {
      FollowsTransitive(h[|h| - 1], w, next);
    }
  }

  /** Whatever was read, however long ago, still bears on what is. */
  lemma {:induction false} Recall(h: seq<World>, w: World, i: Moment)
    requires History(h, w) && Fit(w) && i < |h|
    ensures Fit(h[i]) && Follows(h[i], w)
    decreases |h|
  {
    var last := h[|h| - 1];
    if i < |h| - 1 {
      Recall(h[..|h| - 1], last, i);
      FollowsTransitive(h[i], last, w);
    }
  }

  lemma {:induction false} HistoryBefore(h: seq<World>, w: World)
    requires History(h, w) && h != []
    ensures History(h[..|h| - 1], h[|h| - 1]) && Fit(h[|h| - 1])
  {
  }

  lemma {:induction false} Between(h: seq<World>, w: World, i: Moment, j: Moment)
    requires History(h, w) && Fit(w) && i <= j < |h|
    ensures Follows(h[i], h[j])
    decreases |h|
  {
    var last, before := h[|h| - 1], h[..|h| - 1];
    HistoryBefore(h, w);
    if i == j {
      Recall(h, w, i);
      FollowsItself(h[i]);
    } else if j == |h| - 1 {
      RecallLast(h, before, last, i);
    } else {
      Between(before, last, i, j);
      assert before[i] == h[i] && before[j] == h[j];
    }
  }

  lemma {:induction false} RecallLast(h: seq<World>, before: seq<World>, last: World, i: Moment)
    requires h == before + [last] && History(before, last) && Fit(last) && i < |before|
    ensures Follows(h[i], last)
  {
    Recall(before, last, i);
  }

  lemma {:induction false} HistoryIsPast(h: seq<World>, w: World)
    requires History(h, w) && Fit(w)
    ensures Past(h, w.db)
  {
    forall i | 0 <= i < |h| ensures Good(h[i].db) && Onward(h[i].db, w.db) {
      Recall(h, w, i);
    }
    forall i, j | 0 <= i <= j < |h| ensures StoreInvariants.Precedes(h[i].db, h[j].db) {
      Between(h, w, i, j);
    }
  }

  lemma {:induction false} FollowsItself(w: World)
    requires Fit(w)
    ensures Follows(w, w)
  {
    SameTables(w.db);
  }

  lemma {:induction false} SameAudit(w: World, db: Db)
    requires Audited(w)
    ensures Audited(w.(db := db)) && Records(w, w.(db := db))
  {
    var b := w.(db := db);
    forall t: Target ensures ReceiptFits(b, t) {
      assert ReceiptFits(w, t);
    }
    assert forall o: Operation :: Tally(b, o) == Tally(w, o) && Settled(b, o) == Settled(w, o);
  }

  lemma {:induction false} SameTables(db: Db)
    requires Good(db)
    ensures Onward(db, db)
  {
  }

  lemma {:induction false} PlainKeeps(h: seq<World>, w: World, r: Request, next: World)
    requires History(h, w) && Fit(w) && !r.Erasure? && Effect(h, w, r) == Some(next)
    ensures Fit(next) && Follows(w, next)
  {
    HistoryIsPast(h, w);
    match r {
      case Life(life) => LifeKeeps(h, w.db, life);
      case Pipeline(pipeline) => PipelineKeeps(h, w.db, pipeline);
      case _ =>
    }
    SameAudit(w, next.db);
  }

  lemma {:induction false} ErasingKeeps(h: seq<World>, w: World, r: ErasureRequest, next: World)
    requires History(h, w) && Fit(w) && r.Erasing? && ErasureEffect(h, w, r) == Some(next)
    ensures Fit(next) && Follows(w, next) && ErasedOne(w, next, r.target)
  {
    ShellsReadTrue(h, w, r);
    ErasingCommits(w, r.target, ShellsRead(h, r), r.cascade, r.at, next);
    ErasedOneRecords(w, next, r.target);
  }

  /** An erasure that commits, whatever shells it found, as long as they were true once. */
  lemma {:induction false} ErasingCommits(w: World, target: MemoryId, shells: seq<Shell>, cascade: bool, at: nat, next: World)
    requires Fit(w) && ShellsTrue(w.db, shells)
    requires var end := ExecLines(Running(w.db, w.audit, 0), EraseLines(target, shells, cascade, at));
             end.Running? && next == World(end.db, end.audit, w.ledger, w.started + {EraseMemory(target)},
               w.tally[EraseMemory(target) := Plus(Tally(w, EraseMemory(target)), Destroyed(w.db, end.db))])
    ensures Good(next.db) && Onward(w.db, next.db) && ErasedOne(w, next, target)
  {
    PlansProper(target, shells, cascade, at);
    EraseRuns(Running(w.db, w.audit, 0), target, shells, cascade, at);
    PlanKeeps(w.db, ErasePlan(target, shells, cascade, at));
  }

  lemma {:induction false} PlanKeeps(db: Db, p: Plan)
    requires Good(db) && Proper(p) && ShellsTrue(db, p.shells) && ExecAll(db, Built(p).statements).Ran?
    ensures var end := ExecAll(db, Built(p).statements).db;
            Good(end) && Onward(db, end) && 0 <= Destroyed(db, end).keys <= Destroyed(db, end).derivatives
  {
    BatchKeeps(db, p);
    DestroyedSane(db, p);
  }

  lemma {:induction false} ShellsReadTrue(h: seq<World>, w: World, r: ErasureRequest)
    requires History(h, w) && Fit(w) && r.Erasing? && Stageable(h, w, r)
    ensures ShellsTrue(w.db, ShellsRead(h, r))
  {
    var moments := seq(|r.ids|, i requires 0 <= i < |r.looks| => h[r.looks[i]].db);
    forall i | 0 <= i < |moments| ensures StoreInvariants.Precedes(moments[i], w.db) {
      Recall(h, w, r.looks[i]);
    }
    Recall(h, w, r.read);
    ErasureShellsTrue(h[r.read].db, r.target, moments, r.ids, w.db);
  }

  lemma {:induction false} ShellsOfIds(db: Db, ids: seq<MemoryId>)
    requires forall m | m in ids :: m in db.memory
    ensures |ShellsOf(db, ids)| == |ids| && forall i | 0 <= i < |ids| :: ShellsOf(db, ids)[i] == ShellOf(db, ids[i])
    decreases |ids|
  {
    if ids != [] {
      ShellsOfIds(db, ids[1..]);
    }
  }

  /** The batch one drain reads: the lowest memories still there, each once. */
  lemma {:induction false} DrainShellsRead(db: Db, batch: nat)
    ensures ShellsTrue(db, DrainShells(db, batch)) && StoreCounters.Distinct(DrainShells(db, batch))
    ensures forall m | StoreResidue.Names(DrainShells(db, batch), m) :: Present(db, m)
    ensures |DrainShells(db, batch)| == Max(0, if |PresentIds(db)| < batch && |PresentIds(db)| < MAX_ACCOUNTED_ERASURE_BATCH
      then |PresentIds(db)| else if batch < MAX_ACCOUNTED_ERASURE_BATCH then batch else MAX_ACCOUNTED_ERASURE_BATCH)
  {
    var present := set m | m in db.memory && db.memory[m].state != Erased;
    var limit := if batch < MAX_ACCOUNTED_ERASURE_BATCH then batch else MAX_ACCOUNTED_ERASURE_BATCH;
    Ordered.FirstByIdPicks(present, limit);
    var ids := Ordered.FirstById(present, limit);
    ShellsOfIds(db, ids);
    assert present == PresentIds(db);
    forall i | 0 <= i < |ids| ensures ids[i] in ids {
    }
  }

  /** A drain that commits: what it read of the rows may be as old as it likes. */
  lemma {:induction false} DrainCommits(w: World, read: Db, serial: nat, batch: nat, time: nat, end: Progress)
    requires Good(w.db) && Good(read) && StoreInvariants.Precedes(read, w.db) && WholeScope in w.audit.receipts
    requires end == ExecLines(Running(w.db, w.audit, 0), DrainLines(EraseScope(serial), DrainShells(read, batch), time)) && end.Running?
    ensures Good(end.db) && Onward(w.db, end.db)
    ensures w.audit.receipts[WholeScope].operation == EraseScope(serial) && !w.audit.receipts[WholeScope].ready
    ensures end.audit == Audit(Drained(w.audit.receipts, EraseScope(serial), ScopeEmpty(end.db)),
                               Journaled(w.audit.journal, EraseScope(serial), Destroyed(w.db, end.db)))
    ensures 0 <= Destroyed(w.db, end.db).keys <= Destroyed(w.db, end.db).derivatives
  {
    var shells := DrainShells(read, batch);
    var plan := DrainPlan(shells, time);
    PlansProper(0, shells, false, time);
    DrainRuns(Running(w.db, w.audit, 0), EraseScope(serial), shells, time);
    DrainShellsRead(read, batch);
    ShellsStayTrue(read, w.db, shells);
    BatchKeeps(w.db, plan);
    DestroyedSane(w.db, plan);
  }

  lemma {:induction false} ReceiptRemains(a: World, w: World, serial: nat)
    requires Audited(a) && Audited(w) && Records(a, w) && Draws(a, serial)
    ensures WholeScope in w.audit.receipts
  {
    assert ReceiptFits(a, WholeScope);
    assert EraseScope(serial) in w.started;
  }

  lemma {:induction false} DrainingEffect(h: seq<World>, w: World, r: ErasureRequest, next: World)
    requires r.Draining? && ErasureEffect(h, w, r) == Some(next)
    ensures r.receipt < |h| && r.batchRead < |h| && Draws(h[r.receipt], r.draining)
    ensures var end := ExecLines(Running(w.db, w.audit, 0), DrainLines(EraseScope(r.draining), DrainShells(h[r.batchRead].db, r.batch), r.time));
            end.Running? && next == World(end.db, end.audit, w.ledger, w.started,
              w.tally[EraseScope(r.draining) := Plus(Tally(w, EraseScope(r.draining)), Destroyed(w.db, end.db))])
  {
    assert w.started + {} == w.started;
  }

  lemma {:induction false} DrainingKeeps(h: seq<World>, w: World, r: ErasureRequest, next: World)
    requires History(h, w) && Fit(w) && r.Draining? && ErasureEffect(h, w, r) == Some(next)
    ensures Fit(next) && Follows(w, next) && DrainedOnce(w, next, r.draining)
  {
    DrainingEffect(h, w, r, next);
    Recall(h, w, r.batchRead);
    Recall(h, w, r.receipt);
    DrainFollows(h[r.receipt], h[r.batchRead].db, w, r.draining, r.batch, r.time, next);
  }

  lemma {:induction false} DrainFollows(past: World, read: Db, w: World, serial: nat, batch: nat, time: nat, next: World)
    requires Audited(past) && Records(past, w) && Draws(past, serial)
    requires Good(read) && StoreInvariants.Precedes(read, w.db) && Good(w.db) && Audited(w)
    requires var end := ExecLines(Running(w.db, w.audit, 0), DrainLines(EraseScope(serial), DrainShells(read, batch), time));
             end.Running? && next == World(end.db, end.audit, w.ledger, w.started,
               w.tally[EraseScope(serial) := Plus(Tally(w, EraseScope(serial)), Destroyed(w.db, end.db))])
    ensures Fit(next) && Follows(w, next) && DrainedOnce(w, next, serial)
  {
    ReceiptRemains(past, w, serial);
    var end := ExecLines(Running(w.db, w.audit, 0), DrainLines(EraseScope(serial), DrainShells(read, batch), time));
    DrainCommits(w, read, serial, batch, time, end);
    DrainedOnceRecords(w, next, serial);
  }

  lemma {:induction false} StartKeeps(h: seq<World>, w: World, r: ErasureRequest, next: World)
    requires History(h, w) && Fit(w) && r.ScopeStart? && ErasureEffect(h, w, r) == Some(next)
    ensures Fit(next) && Follows(w, next) && StartedScope(w, next, r.serial)
  {
    StartRuns(Running(w.db, w.audit, 0), r.serial);
    SameTables(w.db);
    StartedScopeRecords(w, next, r.serial);
  }

  lemma {:induction false} AcknowledgeRuns(w: World, t: Target, o: Operation)
    requires Good(w.db) && Audited(w) && o in w.ledger
    ensures var end := ExecLines(Running(w.db, w.audit, 0), [Note(MarkDelivered(t, o))]);
            end.Running? && end.db == w.db && Acknowledged(w, w.(audit := end.audit), t, o)
  {
    SingleLine(Running(w.db, w.audit, 0), Note(MarkDelivered(t, o)));
  }

  lemma {:induction false} AcknowledgeEffect(h: seq<World>, w: World, r: ErasureRequest, next: World)
    requires r.Acknowledge? && ErasureEffect(h, w, r) == Some(next)
    ensures r.appended < |h| && r.delivered in h[r.appended].ledger
    ensures var end := ExecLines(Running(w.db, w.audit, 0), [Note(MarkDelivered(r.place, r.delivered))]);
            end.Running? && next == World(end.db, end.audit, w.ledger, w.started, w.tally)
  {
    assert w.started + {} == w.started;
  }

  lemma {:induction false} AcknowledgeKeeps(h: seq<World>, w: World, r: ErasureRequest, next: World)
    requires History(h, w) && Fit(w) && r.Acknowledge? && ErasureEffect(h, w, r) == Some(next)
    ensures Fit(next) && Follows(w, next) && Acknowledged(w, next, r.place, r.delivered)
  {
    AcknowledgeEffect(h, w, r, next);
    Recall(h, w, r.appended);
    AcknowledgeRuns(w, r.place, r.delivered);
    SameTables(w.db);
    AcknowledgedRecords(w, next, r.place, r.delivered);
  }

  lemma {:induction false} EffectKeeps(h: seq<World>, w: World, r: Request, next: World)
    requires History(h, w) && Fit(w) && Effect(h, w, r) == Some(next)
    ensures Fit(next) && Follows(w, next)
  {
    if r.Erasure? {
      match r.erasure {
        case Erasing(_, _, _, _, _, _, _) => ErasingKeeps(h, w, r.erasure, next);
        case Draining(_, _, _, _, _) => DrainingKeeps(h, w, r.erasure, next);
        case ScopeStart(_, _, _, _) => StartKeeps(h, w, r.erasure, next);
        case Acknowledge(_, _, _) => AcknowledgeKeeps(h, w, r.erasure, next);
      }
    } else {
      PlainKeeps(h, w, r, next);
    }
  }

  lemma {:induction false} EffectsKeep(h: seq<World>, w: World, rs: seq<Request>, next: World)
    requires History(h, w) && Fit(w) && Effects(h, w, rs) == Some(next)
    ensures Fit(next) && Follows(w, next)
    decreases |rs|
  {
    if rs == [] {
      FollowsItself(w);
    } else {
      var mid := Effect(h, w, rs[0]).value;
      EffectKeeps(h, w, rs[0], mid);
      HistoryFollows(h, w, mid);
      EffectsKeep(h, mid, rs[1..], next);
      FollowsTransitive(w, mid, next);
    }
  }

  /** Totals of a settled operation, read at any moment since, are the totals now. */
  lemma {:induction false} FinalTotals(a: World, counted: World, now: World, o: Operation)
    requires Settled(a, o) && Records(a, counted) && Records(counted, now) && RecordsFit(now)
    ensures Settled(now, o)
    ensures Entry(TotalsOf(counted.audit.journal, o), BatchesOf(counted.audit.journal, o)) == Entry(Tally(now, o), BatchesOf(now.audit.journal, o))
  {
    assert SameRecord(counted, now, o);
  }

  lemma {:induction false} AppendKeeps(h: seq<World>, e: Event, w: World)
    requires h != [] && Fit(h[|h| - 1]) && History(h, h[|h| - 1]) && e.Append? && Next(h, e, w)
    ensures Fit(w) && Follows(h[|h| - 1], w)
  {
    var now := h[|h| - 1];
    var o := h[e.read].audit.receipts[e.target].operation;
    Recall(h, now, e.read);
    Recall(h, now, e.counted);
    Recall(h, now, |h| - 1);
    ReadyIsSettled(h[e.read], e.target);
    Between(h, now, e.read, e.counted);
    FinalTotals(h[e.read], h[e.counted], now, o);
    AppendedRecords(now, w, o, Entry(Tally(now, o), BatchesOf(now.audit.journal, o)));
    SameTables(now.db);
  }

  lemma {:induction false} ReadyIsSettled(w: World, t: Target)
    requires Audited(w) && t in w.audit.receipts && w.audit.receipts[t].ready
    ensures Settled(w, w.audit.receipts[t].operation)
  {
    assert ReceiptFits(w, t);
    forall u | u in w.audit.receipts && w.audit.receipts[u].operation == w.audit.receipts[t].operation
      ensures w.audit.receipts[u].ready
    {
      assert ReceiptFits(w, u);
    }
  }

  lemma {:induction false} GenesisFits()
    ensures Fit(GENESIS)
  {
  }

  lemma {:induction false} StepKeeps(h: seq<World>, e: Event, w: World)
    requires h != [] && History(h, h[|h| - 1]) && Fit(h[|h| - 1]) && Next(h, e, w)
    ensures Fit(w) && Follows(h[|h| - 1], w) && History(h, w)
  {
    match e {
      case Commit(rs) => EffectsKeep(h, h[|h| - 1], rs, w);
      case Append(_, _, _) => AppendKeeps(h, e, w);
    }
    HistoryFollows(h, h[|h| - 1], w);
  }

  lemma {:induction false} HistoryExtends(h: seq<World>, w: World)
    requires History(h, w) && Fit(w)
    ensures History(h + [w], w)
  {
    FollowsItself(w);
    assert (h + [w])[..|h|] == h;
  }

  lemma {:induction false} RunExtends(h: seq<World>, last: World, e: Event, w: World)
    requires h != [] && last == h[|h| - 1] && Fit(last) && History(h, last) && Next(h, e, w)
    ensures Fit(w) && History(h + [w], w)
  {
    StepKeeps(h, e, w);
    HistoryExtends(h, w);
  }

  lemma {:induction false} Cut(run: Run, n: nat)
    requires IsRun(run) && 0 < n < |run.worlds|
    ensures var h := run.worlds[..n];
            h != [] && h[|h| - 1] == run.worlds[n - 1] && run.worlds[..n + 1] == h + [run.worlds[n]]
            && Next(h, run.events[n - 1], run.worlds[n])
  {
    assert StepAt(run, n - 1);
  }

  lemma {:induction false} KeepsOn(run: Run, n: nat, last: World, w: World)
    requires IsRun(run) && 0 < n < |run.worlds| && last == run.worlds[n - 1] && w == run.worlds[n]
    requires Fit(last) && History(run.worlds[..n], last)
    ensures Fit(w) && History(run.worlds[..n + 1], w)
  {
    Cut(run, n);
    RunExtends(run.worlds[..n], last, run.events[n - 1], w);
  }

  lemma {:induction false} GenesisKeeps(run: Run, w: World)
    requires IsRun(run) && w == run.worlds[0]
    ensures Fit(w) && History(run.worlds[..1], w)
  {
    GenesisFits();
    HistoryExtends([], w);
    assert run.worlds[..1] == [] + [w];
  }

  ghost predicate KeptTo(run: Run, n: nat)
    requires n < |run.worlds|
  {
    Fit(run.worlds[n]) && History(run.worlds[..n + 1], run.worlds[n])
  }

  lemma {:induction false} KeptOn(run: Run, n: nat)
    requires IsRun(run) && 0 < n < |run.worlds| && KeptTo(run, n - 1)
    ensures KeptTo(run, n)
  {
    assert run.worlds[..n - 1 + 1] == run.worlds[..n];
    KeepsOn(run, n, run.worlds[n - 1], run.worlds[n]);
  }

  lemma {:induction false} AllKept(run: Run, n: nat)
    requires IsRun(run) && n < |run.worlds|
    ensures KeptTo(run, n)
    decreases n
  {
    if n == 0 {
      GenesisKeeps(run, run.worlds[0]);
    } else {
      AllKept(run, n - 1);
      KeptOn(run, n);
    }
  }

  /** Every state of every run keeps the invariant, and follows every earlier one. */
  lemma {:induction false} RunKeeps(run: Run, n: nat)
    requires IsRun(run) && n < |run.worlds|
    ensures Fit(run.worlds[n]) && History(run.worlds[..n + 1], run.worlds[n])
  {
    AllKept(run, n);
  }

  /** One step of a run, with what is known before it. */
  lemma {:induction false} StepWithin(run: Run, n: nat, h: seq<World>, last: World, e: Event, w: World)
    requires IsRun(run) && 0 < n < |run.worlds| && h == run.worlds[..n] && last == run.worlds[n - 1]
    requires e == run.events[n - 1] && w == run.worlds[n]
    ensures h != [] && h[|h| - 1] == last && Fit(last) && History(h, last) && Next(h, e, w)
    ensures run.worlds[..n + 1] == h + [w]
  {
    Cut(run, n);
    RunKeeps(run, n - 1);
  }

  lemma {:induction false} StatesFollow(run: Run, i: nat, j: nat)
    requires IsRun(run) && i <= j < |run.worlds|
    ensures Fit(run.worlds[i]) && Fit(run.worlds[j]) && Follows(run.worlds[i], run.worlds[j])
  {
    RunKeeps(run, j);
    assert run.worlds[..j + 1][i] == run.worlds[i];
    Recall(run.worlds[..j + 1], run.worlds[j], i);
  }

  lemma {:induction false} OneEffect(h: seq<World>, w: World, r: Request, next: World)
    requires Effects(h, w, [r]) == Some(next)
    ensures Effect(h, w, r) == Some(next)
  {
    assert [r][1..] == [];
  }

  /** A step that is one erasure request alone. */
  lemma {:induction false} SoloErasure(run: Run, i: nat, r: ErasureRequest)
    requires IsRun(run) && i < |run.events| && run.events[i] == Commit([Erasure(r)])
    ensures |run.worlds| == |run.events| + 1
    ensures Fit(run.worlds[i]) && History(run.worlds[..i + 1], run.worlds[i])
    ensures ErasureEffect(run.worlds[..i + 1], run.worlds[i], r) == Some(run.worlds[i + 1])
  {
    RunKeeps(run, i);
    Cut(run, i + 1);
    SoloStep(run.worlds[..i + 1], r, run.worlds[i + 1]);
  }

  lemma {:induction false} SoloStep(h: seq<World>, r: ErasureRequest, w: World)
    requires h != [] && Next(h, Commit([Erasure(r)]), w)
    ensures ErasureEffect(h, h[|h| - 1], r) == Some(w)
  {
    OneEffect(h, h[|h| - 1], Erasure(r), w);
  }
}
