/** The durable record of an erasure: receipts, journal and ledger over a run. */
module StoreReceipts {

  import opened Succession
  import opened StoreWorld
  import opened StoreAccounting
  import opened StoreErasing
  import opened StoreRequests

  ghost function Tally(w: World, operation: Operation): Totals {
    if operation in w.tally then w.tally[operation] else ZERO
  }

  /** Started, and no receipt of it is still draining. */
  ghost predicate Settled(w: World, operation: Operation) {
    operation in w.started
    && forall t | t in w.audit.receipts && w.audit.receipts[t].operation == operation :: w.audit.receipts[t].ready
  }

  ghost predicate ReceiptFits(w: World, t: Target) {
    t in w.audit.receipts ==>
      var receipt := w.audit.receipts[t];
      && receipt.operation in w.started
      && (match t case OneMemory(id) => receipt.operation == EraseMemory(id) && receipt.ready
                  case WholeScope => receipt.operation.EraseScope?)
      && (receipt.delivered ==> receipt.operation in w.ledger)
  }

  ghost predicate ReceiptsFit(w: World) {
    && (forall t: Target :: ReceiptFits(w, t))
    && (forall id: MemoryId | EraseMemory(id) in w.started :: OneMemory(id) in w.audit.receipts)
    && (forall n: nat | EraseScope(n) in w.started :: WholeScope in w.audit.receipts)
  }

  /** The journal says what each operation destroyed, and the ledger repeats it once it is final. */
  ghost predicate RecordsFit(w: World) {
    && JournalSane(w.audit.journal)
    && (forall o: Operation :: TotalsOf(w.audit.journal, o) == Tally(w, o))
    && (forall o | o in w.ledger ::
          Settled(w, o) && w.ledger[o] == Entry(Tally(w, o), BatchesOf(w.audit.journal, o)))
  }

  ghost predicate Audited(w: World) {
    ReceiptsFit(w) && RecordsFit(w)
  }

  /** What an operation has to show for itself. */
  ghost predicate SameRecord(a: World, b: World, o: Operation) {
    TotalsOf(a.audit.journal, o) == TotalsOf(b.audit.journal, o) && Tally(a, o) == Tally(b, o)
    && BatchesOf(a.audit.journal, o) == BatchesOf(b.audit.journal, o)
  }

  /** A settled operation stays settled and never destroys again; the ledger only grows. */
  ghost predicate Records(a: World, b: World) {
    && a.started <= b.started
    && (forall o | Settled(a, o) :: Settled(b, o) && SameRecord(a, b, o))
    && (forall o | o in a.ledger :: o in b.ledger && b.ledger[o] == a.ledger[o])
  }

  lemma {:induction false} RecordsTransitive(a: World, b: World, c: World)
    requires Records(a, b) && Records(b, c)
    ensures Records(a, c)
  {
    forall o | Settled(a, o) ensures Settled(c, o) && SameRecord(a, c, o) {
      assert SameRecord(a, b, o) && SameRecord(b, c, o);
    }
  }

  // ------------------------------------------------------------- one batch

  lemma {:induction false} BatchesUnmoved(journal: map<nat, JournalRow>, operation: Operation, gone: Totals, other: Operation)
    requires other != operation
    ensures BatchesOf(Journaled(journal, operation, gone), other) == BatchesOf(journal, other)
  {
    var next := NextBatch(journal);
    NoneBeyond(journal, next);
    assert RowsOf(Journaled(journal, operation, gone), other) == RowsOf(journal, other);
  }

  /** After a batch of `operation`, its totals moved by what went, and nobody else's did. */
  lemma {:induction false} BatchRecorded(a: World, b: World, operation: Operation, gone: Totals)
    requires Audited(a) && 0 <= gone.keys <= gone.derivatives
    requires b.audit.journal == Journaled(a.audit.journal, operation, gone)
    requires b.tally == a.tally[operation := Plus(Tally(a, operation), gone)]
    ensures JournalSane(b.audit.journal)
    ensures forall o: Operation :: TotalsOf(b.audit.journal, o) == Tally(b, o)
    ensures forall o: Operation | o != operation :: SameRecord(a, b, o)
  {
    BatchMovesTotals(a.audit.journal, operation, gone, operation);
    forall o: Operation ensures TotalsOf(b.audit.journal, o) == Tally(b, o) {
      BatchMovesTotals(a.audit.journal, operation, gone, o);
      assert TotalsOf(a.audit.journal, o) == Tally(a, o);
    }
    forall o: Operation | o != operation ensures SameRecord(a, b, o) {
      BatchMovesTotals(a.audit.journal, operation, gone, o);
      BatchesUnmoved(a.audit.journal, operation, gone, o);
    }
  }

  /** The ledger stands as long as what settled stands. */
  lemma {:induction false} LedgerStands(a: World, b: World)
    requires RecordsFit(a) && b.ledger == a.ledger
    requires forall o | Settled(a, o) :: Settled(b, o) && SameRecord(a, b, o)
    ensures forall o | o in b.ledger :: Settled(b, o) && b.ledger[o] == Entry(Tally(b, o), BatchesOf(b.audit.journal, o))
  {
    forall o | o in b.ledger ensures Settled(b, o) && b.ledger[o] == Entry(Tally(b, o), BatchesOf(b.audit.journal, o)) {
      assert SameRecord(a, b, o);
    }
  }

  // ----------------------------------------------------- erasing one memory

  ghost predicate ErasedOne(a: World, b: World, id: MemoryId) {
    var o := EraseMemory(id);
    && OneMemory(id) !in a.audit.receipts
    && b.audit == Audit(a.audit.receipts[OneMemory(id) := NewReceipt(o)], Journaled(a.audit.journal, o, Destroyed(a.db, b.db)))
    && b.ledger == a.ledger && b.started == a.started + {o}
    && b.tally == a.tally[o := Plus(Tally(a, o), Destroyed(a.db, b.db))]
    && 0 <= Destroyed(a.db, b.db).keys <= Destroyed(a.db, b.db).derivatives
  }

  lemma {:induction false} ErasedOneRecords(a: World, b: World, id: MemoryId)
    requires Audited(a) && ErasedOne(a, b, id)
    ensures Audited(b) && Records(a, b)
  {
    var o := EraseMemory(id);
    BatchRecorded(a, b, o, Destroyed(a.db, b.db));
    assert o !in a.started;
    forall t: Target ensures ReceiptFits(b, t) {
      assert ReceiptFits(a, t);
    }
    forall p | Settled(a, p) ensures Settled(b, p) && SameRecord(a, b, p) {
    }
    LedgerStands(a, b);
  }

  // ------------------------------------------------------- draining a scope

  ghost predicate DrainedOnce(a: World, b: World, serial: nat) {
    var o := EraseScope(serial);
    && WholeScope in a.audit.receipts && a.audit.receipts[WholeScope].operation == o && !a.audit.receipts[WholeScope].ready
    && b.audit == Audit(Drained(a.audit.receipts, o, ScopeEmpty(b.db)), Journaled(a.audit.journal, o, Destroyed(a.db, b.db)))
    && b.ledger == a.ledger && b.started == a.started
    && b.tally == a.tally[o := Plus(Tally(a, o), Destroyed(a.db, b.db))]
    && 0 <= Destroyed(a.db, b.db).keys <= Destroyed(a.db, b.db).derivatives
  }

  lemma {:induction false} DrainedOnceRecords(a: World, b: World, serial: nat)
    requires Audited(a) && DrainedOnce(a, b, serial)
    ensures Audited(b) && Records(a, b)
  {
    var o := EraseScope(serial);
    BatchRecorded(a, b, o, Destroyed(a.db, b.db));
    assert !Settled(a, o);
    forall t: Target ensures ReceiptFits(b, t) {
      assert ReceiptFits(a, t);
    }
    forall p | Settled(a, p) ensures Settled(b, p) && SameRecord(a, b, p) {
      assert p != o;
    }
    LedgerStands(a, b);
  }

  // ------------------------------------------- starting and acknowledging

  ghost predicate StartedScope(a: World, b: World, serial: nat) {
    && (WholeScope in a.audit.receipts ==> a.audit.receipts[WholeScope].delivered)
    && b.audit == a.audit.(receipts := a.audit.receipts[WholeScope := Receipt(EraseScope(serial), false, false)])
    && EraseScope(serial) !in a.started && b.started == a.started + {EraseScope(serial)}
    && b.ledger == a.ledger && b.tally == a.tally
  }

  lemma {:induction false} StartedScopeRecords(a: World, b: World, serial: nat)
    requires Audited(a) && StartedScope(a, b, serial)
    ensures Audited(b) && Records(a, b)
  {
    forall t: Target ensures ReceiptFits(b, t) {
      assert ReceiptFits(a, t);
    }
    forall p | Settled(a, p) ensures Settled(b, p) && SameRecord(a, b, p) {
      assert p != EraseScope(serial);
    }
    assert forall o: Operation :: Tally(b, o) == Tally(a, o);
    LedgerStands(a, b);
  }

  /** The receipt of an operation whose Decision is in the ledger is marked delivered. */
  ghost predicate Acknowledged(a: World, b: World, t: Target, o: Operation) {
    && o in a.ledger
    && b.audit == a.audit.(receipts :=
         if t in a.audit.receipts && a.audit.receipts[t].operation == o
         then a.audit.receipts[t := a.audit.receipts[t].(delivered := true)] else a.audit.receipts)
    && b.started == a.started && b.ledger == a.ledger && b.tally == a.tally
  }

  lemma {:induction false} AcknowledgedRecords(a: World, b: World, t: Target, o: Operation)
    requires Audited(a) && Acknowledged(a, b, t, o)
    ensures Audited(b) && Records(a, b)
  {
    forall u: Target ensures ReceiptFits(b, u) {
      assert ReceiptFits(a, u);
    }
    forall p | Settled(a, p) ensures Settled(b, p) && SameRecord(a, b, p) {
    }
    assert forall q: Operation :: Tally(b, q) == Tally(a, q);
    LedgerStands(a, b);
  }

  // ------------------------------------------------------------- the ledger

  /** Appending a Decision: idempotent per id, and refused for other content. */
  ghost predicate Appended(a: World, b: World, o: Operation, entry: Entry) {
    b == a.(ledger := if o in a.ledger then a.ledger else a.ledger[o := entry])
  }

  lemma {:induction false} AppendedRecords(a: World, b: World, o: Operation, entry: Entry)
    requires Audited(a) && Appended(a, b, o, entry) && Settled(a, o)
    requires entry == Entry(Tally(a, o), BatchesOf(a.audit.journal, o))
    ensures Audited(b) && Records(a, b)
  {
    forall t: Target ensures ReceiptFits(b, t) {
      assert ReceiptFits(a, t);
    }
    assert forall q: Operation :: Tally(b, q) == Tally(a, q) && Settled(b, q) == Settled(a, q);
  }
}
