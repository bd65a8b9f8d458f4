/** A scope erasure asked for again after it was delivered. */
module StoreReplay {

  import opened Wrappers
  import opened StoreTables
  import opened StoreWorld
  import opened StoreRequests
  import opened StoreRuns
  import opened StoreScope
  import StoreSteps
  import StoreErasing
  import StoreInvariants
  import StoreAccounting
  import StoreReceipts

  // ------------------------------------------------------ who records claims

  predicate Files(st: Statement, claim: ClaimId) {
    st.OnClaims? && st.claim.InsertClaim? && st.claim.claim == claim
  }

  lemma {:induction false} UnfiledAll(db: Db, sts: seq<Statement>, claim: ClaimId)
    requires claim !in db.claims.history && ExecAll(db, sts).Ran? && forall i | 0 <= i < |sts| :: !Files(sts[i], claim)
    ensures claim !in ExecAll(db, sts).db.claims.history
    decreases |sts|
  {
    if sts != [] {
      assert !Files(sts[0], claim);
      assert claim !in Exec(db, sts[0]).db.claims.history;
      assert forall i | 0 <= i < |sts[1..]| :: sts[1..][i] == sts[i + 1];
      UnfiledAll(Exec(db, sts[0]).db, sts[1..], claim);
    }
  }

  lemma {:induction false} EffectUnfiled(h: seq<World>, w: World, r: Request, next: World, claim: ClaimId)
    requires Effect(h, w, r) == Some(next) && !StoreSteps.Records(r, claim) && claim !in w.db.claims.history
    ensures claim !in next.db.claims.history
  {
    StoreSteps.EffectRuns(h, w, r, next);
    StoreSteps.EveryStatementFits(h, w, r);
    FittingFiles(r, StoreSteps.Batched(h, w, r), claim);
    UnfiledAll(w.db, StoreSteps.Batched(h, w, r), claim);
  }

  lemma {:induction false} FittingFiles(r: Request, sts: seq<Statement>, claim: ClaimId)
    requires StoreSteps.AllFit(r, sts) && !StoreSteps.Records(r, claim)
    ensures forall i | 0 <= i < |sts| :: !Files(sts[i], claim)
  {
    forall i | 0 <= i < |sts| ensures !Files(sts[i], claim) {
      assert StoreSteps.Fits(r, sts[i]);
    }
  }

  predicate SomeRecords(rs: seq<Request>, claim: ClaimId) {
    exists n :: 0 <= n < |rs| && StoreSteps.Records(rs[n], claim)
  }

  lemma {:induction false} EffectsUnfiled(h: seq<World>, w: World, rs: seq<Request>, next: World, claim: ClaimId)
    requires Effects(h, w, rs) == Some(next) && claim !in w.db.claims.history && !SomeRecords(rs, claim)
    ensures claim !in next.db.claims.history
    decreases |rs|
  {
    if rs != [] {
      var mid := StoreSteps.EffectsFirst(h, w, rs, next);
      assert !StoreSteps.Records(rs[0], claim);
      EffectUnfiled(h, w, rs[0], mid, claim);
      assert forall n | 0 <= n < |rs[1..]| :: rs[1..][n] == rs[n + 1];
      EffectsUnfiled(h, mid, rs[1..], next, claim);
    }
  }

  /** Between states `i` and `j` the claim was recorded. */
  ghost predicate RecordedSince(run: Run, i: nat, j: nat, claim: ClaimId) {
    exists k: nat, n: nat, r: Request {:trigger StoreSteps.CommittedAt(run, k, n, r)} ::
      i <= k < j && StoreSteps.CommittedAt(run, k, n, r) && StoreSteps.Records(r, claim)
  }

  lemma {:induction false} StepUnfiled(h: seq<World>, last: World, e: Event, w: World, claim: ClaimId)
    requires h != [] && last == h[|h| - 1] && Next(h, e, w) && claim !in last.db.claims.history
    requires e.Commit? ==> !SomeRecords(e.requests, claim)
    ensures claim !in w.db.claims.history
  {
    if e.Commit? {
      EffectsUnfiled(h, last, e.requests, w, claim);
    }
  }

  lemma {:induction false} NoneRecords(run: Run, i: nat, j: nat, claim: ClaimId)
    requires i < j <= |run.events| && !RecordedSince(run, i, j, claim)
    ensures run.events[j - 1].Commit? ==> !SomeRecords(run.events[j - 1].requests, claim)
    ensures !RecordedSince(run, i, j - 1, claim)
  {
    var e := run.events[j - 1];
    if e.Commit? {
      forall n | 0 <= n < |e.requests| ensures !StoreSteps.Records(e.requests[n], claim) {
        assert StoreSteps.CommittedAt(run, j - 1, n, e.requests[n]);
      }
    }
  }

  lemma {:induction false} UnfiledUntil(run: Run, i: nat, j: nat, claim: ClaimId)
    requires IsRun(run) && i <= j < |run.worlds| && claim !in run.worlds[i].db.claims.history
    requires !RecordedSince(run, i, j, claim)
    ensures claim !in run.worlds[j].db.claims.history
    decreases j
  {
    if i < j {
      NoneRecords(run, i, j, claim);
      UnfiledUntil(run, i, j - 1, claim);
      UnfiledOn(run, j, run.worlds[j - 1], run.worlds[j], claim);
    }
  }

  lemma {:induction false} UnfiledOn(run: Run, j: nat, last: World, w: World, claim: ClaimId)
    requires IsRun(run) && 0 < j < |run.worlds| && last == run.worlds[j - 1] && w == run.worlds[j]
    requires claim !in last.db.claims.history
    requires run.events[j - 1].Commit? ==> !SomeRecords(run.events[j - 1].requests, claim)
    ensures claim !in w.db.claims.history
  {
    Cut(run, j);
    StepUnfiled(run.worlds[..j], last, run.events[j - 1], w, claim);
  }

  predicate Lives(db: Db, claim: ClaimId) {
    claim in db.claims.history && !db.claims.history[claim].erased
  }

  /** A claim alive in a scope that was once empty was recorded since. */
  lemma {:induction false} LivesSince(run: Run, i: nat, j: nat, claim: ClaimId)
    requires IsRun(run) && i <= j < |run.worlds| && ScopeEmpty(run.worlds[i].db) && Lives(run.worlds[j].db, claim)
    ensures RecordedSince(run, i, j, claim)
  {
    StatesFollow(run, i, j);
    ErasedStays(run.worlds[i].db, run.worlds[j].db, claim);
    if !RecordedSince(run, i, j, claim) {
      UnfiledUntil(run, i, j, claim);
    }
  }

  lemma {:induction false} ErasedStays(a: Db, b: Db, claim: ClaimId)
    requires StoreInvariants.Precedes(a, b) && ScopeEmpty(a) && Lives(b, claim)
    ensures claim !in a.claims.history
  {
  }

  // ----------------------------------------------- when it was made ready

  lemma {:induction false} ReadiedBy(h: seq<World>, w: World, r: Request, next: World, serial: nat)
    requires Effect(h, w, r) == Some(next) && !ReadyNow(w, serial) && ReadyNow(next, serial)
    ensures Draws(w, serial)
  {
    if r.Erasure? {
      var p := Running(w.db, w.audit, 0);
      match r.erasure
      case Erasing(_, _, _, _, _, _, _) => ComposedKeepsReceipt(h, w, r, next);
      case ScopeStart(_, _, _, n) => StoreErasing.StartRuns(p, n);
      case Draining(_, _, _, _, _) => DrainReadied(h, w, r.erasure, next, serial);
      case Acknowledge(t, o, _) => StoreAccounting.SingleLine(p, Note(MarkDelivered(t, o)));
    }
  }

  lemma {:induction false} DrainReadied(h: seq<World>, w: World, r: ErasureRequest, next: World, serial: nat)
    requires r.Draining? && ErasureEffect(h, w, r) == Some(next) && !ReadyNow(w, serial) && ReadyNow(next, serial)
    ensures Draws(w, serial)
  {
    DrainingEffect(h, w, r, next);
    StoreErasing.DrainRuns(Running(w.db, w.audit, 0), EraseScope(r.draining), DrainShells(h[r.batchRead].db, r.batch), r.time);
  }

  lemma {:induction false} StepReadied(h: seq<World>, last: World, e: Event, w: World, serial: nat)
    requires h != [] && last == h[|h| - 1] && Next(h, e, w) && !ReadyNow(last, serial) && ReadyNow(w, serial)
    ensures Draws(last, serial)
  {
    match e
    case Commit(rs) =>
      if forall i | 0 <= i < |rs| :: Composes(rs[i]) {
        AllComposedKeepReceipt(h, last, rs, w);
      } else {
        assert rs == [rs[0]];
        OneEffect(h, last, rs[0], w);
        ReadiedBy(h, last, rs[0], w, serial);
      }
    case Append(_, _, _) =>
  }

  /** A ready operation was made ready by one commit, where the scope was left empty. */
  lemma {:induction false} MadeReady(run: Run, j: nat, serial: nat) returns (c: nat)
    requires IsRun(run) && j < |run.worlds| && ReadyNow(run.worlds[j], serial)
    ensures c < j && Draws(run.worlds[c], serial) && ReadyNow(run.worlds[c + 1], serial) && ScopeEmpty(run.worlds[c + 1].db)
    decreases j
  {
    assert j > 0;
    if ReadyNow(run.worlds[j - 1], serial) {
      c := MadeReady(run, j - 1, serial);
    } else {
      ReadiedOn(run, j, run.worlds[j - 1], run.worlds[j], serial);
      ReadyOnlyWhenEmpty(run, j - 1, serial);
      c := j - 1;
    }
  }

  lemma {:induction false} ReadiedOn(run: Run, j: nat, last: World, w: World, serial: nat)
    requires IsRun(run) && 0 < j < |run.worlds| && last == run.worlds[j - 1] && w == run.worlds[j]
    requires !ReadyNow(last, serial) && ReadyNow(w, serial)
    ensures Draws(last, serial)
  {
    Cut(run, j);
    StepReadied(run.worlds[..j], last, run.events[j - 1], w, serial);
  }

  // ------------------------------------------------------------- asking again

  ghost predicate Delivered(w: World) {
    WholeScope in w.audit.receipts && w.audit.receipts[WholeScope].delivered
  }

  lemma {:induction false} DeliveredIsReady(run: Run, j: nat) returns (serial: nat)
    requires IsRun(run) && j < |run.worlds| && Delivered(run.worlds[j])
    ensures ReadyNow(run.worlds[j], serial)
  {
    RunKeeps(run, j);
    assert StoreReceipts.ReceiptFits(run.worlds[j], WholeScope);
    serial := run.worlds[j].audit.receipts[WholeScope].operation.serial;
    SettledIsReady(run.worlds[j]);
  }

  lemma {:induction false} SettledIsReady(w: World)
    requires StoreReceipts.Audited(w) && Delivered(w)
    ensures w.audit.receipts[WholeScope].ready
  {
    assert StoreReceipts.ReceiptFits(w, WholeScope);
  }

  /** A request on these readings starts no operation. */
  ghost predicate Overlooks(run: Run, previous: nat, content: nat, keysAt: nat, serial: nat)
    requires run.worlds != []
  {
    !Stageable(run.worlds, run.worlds[|run.worlds| - 1], ScopeStart(previous, content, keysAt, serial))
  }

  /** Asked for again after delivery, on readings of any three moments, an erasure starts no
      operation exactly when it found no memory and no key, whatever claims there are; and
      every claim alive since the delivered operation became ready was recorded since. */
  lemma {:induction false} ReplayOverlooksClaims(run: Run, previous: nat, content: nat, keysAt: nat, serial: nat)
    returns (c: nat)
    requires IsRun(run) && previous < |run.worlds| && content < |run.worlds| && keysAt < |run.worlds|
    requires Delivered(run.worlds[previous]) && EraseScope(serial) !in run.worlds[|run.worlds| - 1].started
    ensures Overlooks(run, previous, content, keysAt, serial)
       <==> ((forall m | m in run.worlds[content].db.memory :: run.worlds[content].db.memory[m].state == Erased)
             && run.worlds[keysAt].db.details.keys == map[])
    ensures c < previous && ScopeEmpty(run.worlds[c + 1].db)
    ensures forall claim: ClaimId, j: nat | c < j < |run.worlds| && Lives(run.worlds[j].db, claim) ::
      RecordedSince(run, c + 1, j, claim)
  {
    var was := DeliveredIsReady(run, previous);
    c := MadeReady(run, previous, was);
    forall claim: ClaimId, j: nat | c < j < |run.worlds| && Lives(run.worlds[j].db, claim)
      ensures RecordedSince(run, c + 1, j, claim)
    {
      LivesSince(run, c + 1, j, claim);
    }
  }
}
